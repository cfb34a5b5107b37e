# KokoaDB: a verified model of its core

KokoaDB stores JSON documents in SQLite databases behind a gateway. This project models the parts of it whose behaviour is hardest to see from the code, and proves what they promise.

## What is modelled

**The filter compiler** turns a Mongo-style filter into SQL text and an ordered list of bind values.

- `JqlFilter` has filters as JSON values, operators, paths and the measure under which compilation ends. `JqlPlan` says which error or which expression a filter is compiled to. `JqlCompiler` is the compiler itself, with the loops and growing vectors of the source, proved to emit the text and the binds of the planned expression.
- `SqlText` is the text as tokens, with a parser that gives NOT precedence over AND over OR. `SqlEval` evaluates parsed text in three-valued logic. The parts of SQLite that are not modelled (JSON access, ordering, LIKE and REGEXP on values, row sources) are arbitrary functions, over which every theorem quantifies.
- `JqlMeaning` gives the meaning of a filter directly on JSON values. `JqlCorrect`, `JqlWellFormed` and `JqlTheorems` connect text and meaning; `JqlBinds` and `JqlShape` treat bind order and text as a function of a filter's shape. `JqlLiterals` spells out the simplest filters, down to the value each literal is bound as. `JqlFullkey` has the LIKE patterns of paths with several `[]` and the full keys they accept, `JqlNested` what such paths select in a document.
- Aliases carry the text they are hashed from, which is the hypothesis that two nested scopes never share a 64-bit FNV-1a name.

**The write coordinator** is a state machine. `WriteQueue` has its atomic steps: clients in the acknowledgement chain, generations of bounded channels, one worker per generation, idle retirement, the registry of senders, cancelled waiters, and the overlay of pending documents. A run is any sequence of enabled steps over any number of databases, clients and generations. `WriteQueueHistory`, `WriteQueueProgress`, `WriteQueueExclusion` and `WriteQueuePending` prove what every run keeps and that every write comes to an end. `RuntimeState` has the shared maps with their composite keys as a class, and `DbPath` the validation that makes these keys separable.

**Statistics, tables, connections, backups.** `StatsWindow` is the deque of minute buckets; `Tables` the document table with its triggers; `Reaper` the TTL reaper as one transaction; `SystemMeta` the switch of the full-text index; `LocalEngine` and `ConnectionCap` the connection cache, one call at a time and with concurrent opens; `BackupRetention` the pruning of backups.

## Where code and documentation part

- `DOCUMENTATION.md` line 2144 says that the keys of one filter object are joined with AND. The code joins the text of a `$or` of two or more arms to its sibling keys without parentheses, so SQL attaches the keys in front to its first arm and the keys behind to its last. `JqlTheorems.TopReading` says exactly when this happens and `JqlTheorems.OrBesideKeys` exactly when it shows; the meaning theorem needs that no object has such a `$or` beside another key.
- `DOCUMENTATION.md` line 2216 says that array wildcards may be nested. The `[%]` that the code emits for each `[]` also takes further arrays on the way (`JqlFullkey.PatternAcceptsDeeperKey`, `JqlNested.DeeperArrayIsSelected`), LIKE ignores the case of names, and a `_` in a name takes any character (`JqlFullkey.UnderscoreTakesDot`). SQLite, on its side, puts labels with a `_` in quotes, and the path then misses them (`JqlNested.OtherSpellingIsMissed`). `JqlNested.NestedWildcards` says what is selected, and when it is what is documented.
- An element-mode object made of `$size: {}` alone is accepted and compiles to an empty WHERE. `JqlTheorems.TextIsWellFormed` says that this is the only way to get malformed text.
- A path such as `a[].$exists` applies the operator to the element, so the operand of such a key is part of the text (`JqlShape.IsInText`).
- The documents that a preview puts into the overlay before it fails stay there until another accepted write of the same document completes or the database is cleared (`WriteQueuePending.WhatStaysPending`, with a run in `RejectionLeavesDocument`).
- `DOCUMENTATION.md` line 320 says that a write coordinator serializes a database's mutations. A close that finds a write in the channel, and the removal of a registry entry that by then leads to an open channel, let a second worker start beside the first (`WriteQueueExclusion.OneWorkerAtATime`, `TwoWorkersAtOnce`).
- `DOCUMENTATION.md` line 281 says that the number of open databases is capped. Opens in flight at the same time each find room, so the cap holds only with one open at a time (`ConnectionCap.CapHoldsIff`).
- The in-memory maps, the registry of write queues among them, are keyed by the database path as the client wrote it, while the file is found by the trimmed path, in which `.` segments name no directory of their own (`RuntimeState.SpacedPathHasOtherKeys`, `DottedPathHasOtherKeys`).
- Opening a database that does not exist closes another connection first when the cap is reached (`LocalEngine.LocalEngine.GetConn`).

## Reading the proofs

`JqlTheorems` is the place to start for filters: `TextIsWellFormed` and `TextMeansFilter` are the main results, with `JqlFullkey.PatternAcceptsExactly` and `JqlNested.NestedWildcards` for nested arrays. For the coordinator these are the lemmas about runs at the end of `WriteQueueHistory`, `WriteQueueExclusion.OneWorkerAtATime` with its counterexample `TwoWorkersAtOnce`, and `WriteQueuePending.WhatStaysPending`. The other main results are `StatsWindow.WindowIsExact`, `Reaper.RunsAgree`, `Reaper.ReapPartitions`, `ConnectionCap.CapHolds` with `CapHoldsIff`, and `BackupRetention.PruningKeepsNewest`.

`dafny verify dfyconfig.toml` checks the whole project.

## Model

| member | source | states |
|---|---|---|
| JqlCompiler.BuildWhere | src/query/jql.rs:13-15 | The answer is the planned expression's text with one `?` per value and its values in text order, or the planned error |
| JqlCompiler.BuildWhereOnBase | src/query/jql.rs:17-19 | The same on any base expression |
| JqlCompiler.CompileFilterOnBase | src/query/jql.rs:21-103 | The loop over an object's keys, joined with AND, emits exactly the plan of the filter; null and the empty object give `1=1` |
| JqlCompiler.CompileLogical | src/query/jql.rs:46-72 | `$and`, `$or`, `$nor`: arms in parentheses, put together with AND, OR or NOT (… OR …), or the list error |
| JqlCompiler.CompileArms | src/query/jql.rs:55-60 | Each arm in its own parentheses, binds in arm order |
| JqlCompiler.CompileNot | src/query/jql.rs:73-77 | `NOT (…)` of the nested filter |
| JqlCompiler.CompileFieldExprOnBase | src/query/jql.rs:105-171 | Nested arrays, the rewrite of one `[]` to `$elemMatch`, and plain fields all emit the field's plan |
| JqlCompiler.CompilePlainField | src/query/jql.rs:136-171 | A scalar becomes one comparison, an operator object its parts joined with AND, an empty one an error |
| JqlCompiler.CompileTreeScan | src/query/jql.rs:173-217 | One EXISTS over `json_tree` guarded by the full-key LIKE, whose bind comes first |
| JqlCompiler.CompileOperator | src/query/jql.rs:273-465 | An operator appends exactly its planned parts and binds to the two vectors |
| JqlCompiler.PushLeaf | src/query/jql.rs:282-450 | Every operator but `$elemMatch`, with its own error cases |
| JqlCompiler.CompileElemMatch | src/query/jql.rs:467-477 | One EXISTS over `json_each` around the filter compiled on the element |
| JqlCompiler.CompileSizePredicate | src/query/jql.rs:498-535 | An integer or a list of comparisons; an empty object appends nothing |
| JqlCompiler.CompileTypePredicate | src/query/jql.rs:537-567 | `number` and `boolean` are two fixed texts in parentheses, other names one bind |
| JqlCompiler.ArrayPathFullkeyPattern | src/query/jql.rs:219-244 | The loop over the segments builds the full-key pattern or reports the first bad segment |
| JqlCompiler.SplitFirstArrayPath | src/query/jql.rs:246-271 | The path is split at its first array segment, or the first bad segment is reported |
| JqlCompiler.ValidatePath | src/query/jql.rs:591-613 | Accepts non-empty paths of letter, digit and underscore segments, first error first |
| JqlCompiler.JoinAllText | src/query/jql.rs:99-102 | Joining part texts with AND prints the joined tree, binds in part order |
| JqlFilter.ArrayRewriteDecreases | src/query/jql.rs:114-134 | The `[]` rewrite enlarges the value it recurses on, yet a measure of brackets and size strictly drops, so compilation terminates on every filter |
| JqlFilter.SplitFirstArrayText | src/query/jql.rs:246-271 | The two halves of a split path with `[]` between them spell the path |
| JqlFilter.AcceptedPath | src/query/jql.rs:591-613 | Accepted filter paths are exactly the non-empty strings of letters, digits and `_` with single dots between them |
| SqlText.ParseOfTokens | src/query/jql.rs:99-102 | Reading printed text with NOT over AND over OR gives the same tree back exactly when no expression is missing |
| SqlText.BindDisj | src/query/jql.rs:99-102 | Binding an expression's values into its text puts each value at its own place |
| SqlEval.EvalJoinAll | src/query/jql.rs:100 | Texts joined with AND mean their conjunction when none of several has an OR at its top |
| SqlEval.HashedAliasIsFresh | src/query/jql.rs:479-496 | An alias made from its argument never occurs in that argument |
| JqlCorrect.FilterCorrect | src/query/jql.rs:21-103 | The compiled expression has the filter's three-valued meaning on every value, in every scope, when no object has a bare `$or` beside another key |
| JqlCorrect.EntryIsConjunction | src/query/jql.rs:63-71 | The text of a key has an OR at its top exactly when it is a `$or` of two or more arms |
| JqlCorrect.LogicalCorrect | src/query/jql.rs:46-72 | `$and`, `$or`, `$nor` mean all, any, none of their arms |
| JqlCorrect.ElementOpCorrect | src/query/jql.rs:78-91 | Inside `$elemMatch` an operator key applies to the element itself |
| JqlCorrect.FieldCorrect | src/query/jql.rs:105-171 | A field means its tests, some element of its array, or, with several `[]`, some tree node whose full key is like the pattern |
| JqlCorrect.ArrayFieldIsElemMatch | src/query/jql.rs:114-134 | A path with one `[]` compiles to exactly one `$elemMatch` on its array |
| JqlCorrect.TreeFieldCorrect | src/query/jql.rs:173-217 | The text of a path with several `[]` means that some tree node is like the full-key pattern and meets the tests; `JqlNested.NestedWildcards` says which nodes these are |
| JqlCorrect.LeafCorrect | src/query/jql.rs:282-450 | Each operator's text means the operator |
| JqlCorrect.ElemMatchCorrect | src/query/jql.rs:467-477 | `$elemMatch` means that the whole nested filter holds of one element; an unknown result is no match |
| JqlMeaning.ComparisonsByName | DOCUMENTATION.md:2172-2181 | `$ne`, `$gte`, `$lte` are the negations of `$eq`, `$lt`, `$gt`, and `$between` is `$gte` and `$lte`, comparing with NULL being unknown; `$exists` is a null test |
| JqlMeaning.ComparesBy | DOCUMENTATION.md:2172-2181 | Comparing with NULL is unknown; otherwise the comparisons follow the order of the values, LIKE and REGEXP their functions |
| JqlMeaning.PatternsByName | src/query/jql.rs:317-356 | Each string operator's wildcards and case folding |
| JqlMeaning.MembershipByName | DOCUMENTATION.md:2187-2188 | `$in` holds when `$eq` holds of some item, `$nin` when `$ne` holds of every item |
| JqlMeaning.ElementsByName | DOCUMENTATION.md:2189-2193 | `$all` is `$includes` of every item, `$any` of some item, `$none` is `$nincludes` of every item |
| JqlMeaning.SizeAndTypeByName | src/query/jql.rs:498-567 | `$size: n` is `$size: {$eq: n}`; the types `number` and `boolean` are either of their two types |
| JqlWellFormed.FilterWhole | src/query/jql.rs:76-102 | No expression is missing from a filter's text exactly when no element-mode object consists of empty `$size`s |
| JqlWellFormed.LeafWhole | src/query/jql.rs:498-535 | Only `$size: {}` contributes no part |
| JqlTheorems.TextIsWellFormed | src/query/jql.rs:13-103 | For every accepted filter the number of `?` is the number of binds, and the text is a boolean expression if and only if no element-mode object consists of empty `$size`s |
| JqlTheorems.TextMeansFilter | src/query/jql.rs:13-171 | For every accepted filter without a `$or` beside another key and without an empty WHERE, parsing the text with its binds and evaluating it gives the filter's meaning on every document; a path with several `[]` means its pattern there |
| JqlTheorems.TopReading | src/query/jql.rs:63-71 | The text of an object reads as a conjunction if and only if none of its keys is a `$or` of two or more arms |
| JqlTheorems.OrBesideKeys | src/query/jql.rs:63-102 | Exactly when an object with a `$or` of several arms between other keys, at the top or nested, is read as it is meant: as a selection when a true first arm with the keys before it meets the keys after it, a true last arm with the keys after it meets those before it, and a true middle arm meets both; and exactly when in all three truth values |
| JqlTheorems.BareOrReading | src/query/jql.rs:99-102 | What SQL reads for a `$or` between other keys: the keys before bind to its first arm, the keys after to its last |
| JqlTheorems.OrBesideKeyDiffers | DOCUMENTATION.md:2144 | A concrete filter and JSON document on which text and documented meaning differ |
| JqlTheorems.EmptySizeIsMalformed | src/query/jql.rs:514-534 | A concrete accepted filter whose text is not an expression |
| JqlBinds.BindsAreOperands | src/query/jql.rs:44-102 | The binds are the filter's operands in traversal order, so the k-th `?` takes the k-th operand |
| JqlBinds.LeafBinds | src/query/jql.rs:282-450 | The binds of each operator |
| JqlLiterals.BoundOrRefused | src/query/jql.rs:615-634 | null is bound as NULL, true as 1, false as 0, numbers and strings as themselves; lists and objects are refused |
| JqlLiterals.LiteralsAreBound | src/query/jql.rs:136-142 | On every plain path each literal gives `base ->> path = ?` with that one value bound |
| JqlLiterals.ScalarIsBound | src/query/jql.rs:136-142 | The same for every scalar |
| JqlLiterals.ComparisonIsBound | src/query/jql.rs:282-311 | Each comparison operator gives its own SQL operator with the operand bound |
| JqlLiterals.ListIsBound | src/query/jql.rs:357-369 | `$in` and `$nin` give one `?` for each item, bound in order |
| JqlLiterals.BoundsAreBound | src/query/jql.rs:370-380 | `$between` binds its lower bound first |
| JqlLiterals.ArrayScalarMeans | src/query/jql.rs:114-134 | A scalar under `a[]` asks for an element equal to it |
| JqlLiterals.ArrayOperatorsMean | src/query/jql.rs:114-134 | An object of operators under `a[]` asks for one element that meets them all |
| JqlLiterals.OtherObjectsAreRefused | src/query/jql.rs:114-134 | Any other object under `a[]` is refused |
| JqlLiterals.ArrayThenFieldMeans | DOCUMENTATION.md:2205-2214 | `a[].b` asks for an element whose `b` meets the test |
| JqlLiterals.TwoArraysAreScanned | src/query/jql.rs:109-112 | A path with two `[]` is compiled to the tree scan |
| JqlLiterals.LogicalByName | DOCUMENTATION.md:2165-2168 | `$and`, `$or`, `$nor` and `$not` mean all, any, none of their filters and not their filter |
| JqlLiterals.LogicalAccepted | src/query/jql.rs:46-77 | They are accepted exactly with a non-empty list of accepted filters, `$not` with an accepted one |
| JqlLiterals.OperatorOutsideIsRefused | src/query/jql.rs:78-97 | Any other `$` key outside `$elemMatch` is refused |
| JqlLiterals.TypeNames | src/query/jql.rs:537-567 | The names that `$type` accepts |
| JqlShape.SameShapeSameText | src/query/jql.rs:13-19 | Two accepted filters of the same shape that differ only in scalar operands, `$exists` and `$type` apart, have the same SQL text and equally many binds |
| JqlShape.AlikeIffMasked | src/query/jql.rs:13-19 | Same shape is being the same filter once the bound scalars are blanked out |
| JqlShape.FieldShape | src/query/jql.rs:105-217 | The same for one field, through the array rewrite and the tree scan |
| JqlFullkey.FullkeyMatches | src/query/jql.rs:219-244 | Whatever indices fill the `[]` of a path, its full key is accepted by the emitted LIKE pattern |
| JqlFullkey.PatternAcceptsExactly | src/query/jql.rs:219-244 | The full keys that a pattern accepts: without `_` in the path exactly those in which each `[]` takes a run of steps from an index to an index; with as many indices as `[]` exactly the path's own, label by label up to ASCII case, a name with `_` needing as many labels too |
| JqlFullkey.PatternAcceptsDeeperKey | src/query/jql.rs:219-244 | Keys through any further arrays between two indices are accepted and are not the path's |
| JqlFullkey.UnderscoreTakesDot | src/query/jql.rs:219-244 | A `_` in a name takes the dot between two labels |
| JqlNested.NestedWildcards | DOCUMENTATION.md:2205-2216 | A document in which some element of some element of the named arrays meets the test is selected; in general a path selects by the runs above, and exactly the documented documents where no further array lies on the way and no label resembles a name without being it |
| JqlNested.NestedText | src/query/jql.rs:173-217 | The same of the emitted text, parsed, with its binds, on the document |
| JqlNested.DeeperArrayIsSelected | DOCUMENTATION.md:2216 | A document with another array on the way is selected though no documented element exists |
| JqlNested.OtherSpellingIsMissed | src/query/jql.rs:219-244 | A path misses its own nodes where full keys spell one of its names otherwise |
| WriteQueue.BusyOnWrite | src/state.rs:671-728 | Previewing, answering, applying and finishing a write touch neither its channel nor the registry |
| WriteQueueHistory.RunsKeepInv | src/state.rs:437-535 | Every state of every run keeps the books of channels, workers and clients |
| WriteQueueHistory.QueuesAreFifo | src/state.rs:640-730 | In every reachable state each generation has taken exactly the first of what its channel accepted, in order and within capacity; a worker leaves only closed, drained and with everything settled |
| WriteQueueHistory.AcceptedOnce | src/state.rs:437-535 | No write is accepted twice, by one channel or by two |
| WriteQueueHistory.SettledOnce | src/state.rs:660-728 | A taken write is run once, rejected at preview, or skipped, and skipped only when its waiter is gone |
| WriteQueueHistory.AppliedAtMostOnce | src/service/dispatcher.rs:155-240 | Through prepared or tried enqueue, committed enqueue and inline execution a client's write is applied at most once |
| WriteQueueHistory.RepliesAreHonest | src/service/dispatcher.rs:155-240 | `committed: true` follows a successful application by a worker in committed mode or inline, `committed: false` acceptance by a channel of a write that is neither skipped nor rejected, and an error a failed or rejected write |
| WriteQueueHistory.NothingIsStuck | DOCUMENTATION.md:318-327 | In every reachable state an unanswered client, or the worker of the channel it waits for, can go on |
| WriteQueueHistory.KeepsRegistry | src/state.rs:626-633 | Registry entries always lead to generations of their database |
| WriteQueueProgress.OwnStep | src/service/dispatcher.rs:155-240 | Where each step takes a client: a committed write that no channel takes is run by the client itself, any other is sent again in committed mode; the sender it gets is of its own database |
| WriteQueueProgress.OtherStep | src/state.rs:657-728 | No other step moves a client but the answer it waits for and its own end |
| WriteQueueProgress.ClientsComeToAnEnd | src/service/dispatcher.rs:155-240 | In every run a client takes at most seven steps of its own, and it is gone if and only if it was cancelled |
| WriteQueueProgress.OffGoesOn | src/state.rs:437-445 | With the queues switched off a client can always go on by itself until it is answered or cancelled |
| WriteQueueProgress.TryNeverWaits | src/state.rs:437-463 | An accepted-mode client never waits to send |
| WriteQueueProgress.FullAt | src/state.rs:626-627 | A channel holds the configured number of writes, and at least one |
| WriteQueueProgress.WorkerStepLowers | src/state.rs:637-730 | Every step of a worker, previewing aside, takes it nearer to its end |
| WriteQueueProgress.ClosedGoesOn | src/state.rs:645-730 | In every reachable state the worker of a closed channel can take such a step until it has stopped |
| WriteQueueProgress.IdleRetires | src/state.rs:641-658 | An idle worker can retire if and only if an idle time is configured |
| WriteQueueProgress.TakesOrSkips | src/state.rs:660-676 | A taken write is skipped exactly when it has a waiter that is gone; otherwise the worker holds it and previews it first in prepared mode |
| WriteQueueProgress.PreviewStep | src/state.rs:671-690 | A preview that succeeds leaves the write to be answered with the revisions it put, one that fails rejects it |
| WriteQueueProgress.ApplyingStep | src/state.rs:691-725 | What applying a write gave is its outcome, and its worker goes back to its loop |
| WriteQueueProgress.OutcomesTell | src/state.rs:660-690 | In every reachable state only writes with a waiter have been skipped and only prepared ones rejected |
| WriteQueueExclusion.OneWorkerAtATime | src/state.rs:626-659 | In every run, of a database in which no close found a write and no open channel lost its registry entry, at most one worker holds a write |
| WriteQueueExclusion.UndisturbedWithoutCause | src/state.rs:437-658 | Databases are disturbed by nothing but a close that finds a write, and a client or a clear that removes the entry of an open channel |
| WriteQueueExclusion.WorkersRemoveTheirOwn | src/state.rs:114-120 | In every run a worker removes no registry entry but its own generation's |
| WriteQueueExclusion.TwoWorkersAtOnce | src/state.rs:437-658 | Each of these three causes, alone, leads in some run to two workers of one database at work at once |
| WriteQueuePending.RunsKeepOverlay | src/state.rs:537-574 | Every run keeps the overlay: each entry is the newest document of its key and belongs to an uncompleted write |
| WriteQueuePending.RevisionsIncrease | src/state.rs:537-554 | Revisions are unique and increasing, and no step changes the revision of an entry but by putting a newer one |
| WriteQueuePending.NewerDocumentsStay | src/state.rs:562-574 | Completing a write removes no pending document that another write put |
| WriteQueuePending.PutShowsOnlyItself | src/state.rs:537-560 | A put shows its document and leaves every other as it was |
| WriteQueuePending.OtherDocumentsStay | src/state.rs:562-574 | In every reachable state, completing a write leaves every document as it was that the write did not put |
| WriteQueuePending.ClearHidesItsOwn | src/state.rs:588-598 | Clearing a database hides its documents and no others |
| WriteQueuePending.WhatStaysPending | src/state.rs:671-703 | With no worker busy and nothing cleared, a key is still pending if and only if its newest document was put by a preview that then failed |
| WriteQueuePending.RejectionLeavesDocument | src/state.rs:671-690 | A run after which a document is pending although its write was answered with an error and no worker is busy |
| PendingKeys.ClearIfCurrentRemoves | src/state.rs:562-574 | Exactly the entries whose revision is among the given ones go |
| RuntimeState.AppState.PutPendingDocument | src/state.rs:537-554 | A fresh revision, larger than all present ones; the document is what its own id then yields, and every other document of every accepted path stays as it was |
| RuntimeState.AppState.GetPendingDocument | src/state.rs:556-560 | The pending document of this database and id, if any |
| RuntimeState.AppState.ClearPendingIfCurrent | src/state.rs:562-574 | The loop removes exactly the listed revisions that are still current, of this database only |
| RuntimeState.AppState.PendingWriteCountForDb | src/state.rs:576-582 | The number of pending entries with the database's prefix |
| RuntimeState.AppState.ClearDbRuntimeState | src/state.rs:584-624 | The queue, statistics, pending documents, epochs and cached reads of the database go, everything else stays |
| RuntimeState.KeysAreSeparate | src/state.rs:1048-1050 | For accepted paths a composite key of one database is never taken for another's |
| RuntimeState.KeysIdentifyEntries | src/state.rs:1048-1050 | For accepted paths two keys of a kind are equal if and only if database and document, collection or read are |
| RuntimeState.EpochKindsDiffer | src/state.rs:367-400 | Keys of different kinds of epoch differ |
| RuntimeState.ClearIsExact | src/state.rs:584-624 | Clearing one database takes all of its keys and none of any other |
| RuntimeState.SpacedPathHasOtherKeys | src/storage/db_path.rs:24-29 | With white space around it, the same database file has other keys, which clearing leaves in place |
| RuntimeState.DottedPathHasOtherKeys | src/storage/db_path.rs:30-47 | So has the same file with a `.` segment in its path |
| DbPath.NormalizeDbPath | src/storage/db_path.rs:24-51 | Rebuilding the path from checked segments gives the trimmed input, or the first error |
| DbPath.ResolveDbFile | src/storage/db_path.rs:7-22 | The normalized path and the components of its file |
| DbPath.FileIsPath | src/storage/db_path.rs:7-22 | The file is the base, a slash, the path and `.db` |
| DbPath.AcceptedChars | src/storage/db_path.rs:40-47 | An accepted path has only letters, digits, `_`, `-`, `.` and `/` |
| DbPath.AcceptedExactly | src/storage/db_path.rs:24-51 | Accepted are exactly the paths of non-empty names between single slashes, without two dots in a row, as they are once trimmed |
| DbPath.TrimIsExact | src/storage/db_path.rs:24-25 | Trimming takes the white space at both ends and nothing else |
| DbPath.NormalizeTwice | src/storage/db_path.rs:24-51 | Normalizing twice is normalizing once |
| DbPath.SameFileIff | src/storage/db_path.rs:10-19 | Two paths lead to the same file, `.` components being dropped, if and only if they are equal but for `.` segments in front of the last |
| DbPath.FilesDiffer | src/storage/db_path.rs:10-19 | Without such segments different paths lead to different files |
| DbPath.DottedInput | src/storage/db_path.rs:30-47 | For every accepted path of two parts the one with a `.` between them is accepted as it stands and leads to the same file |
| DbPath.StaysUnderBase | src/storage/db_path.rs:30-47 | No component of an accepted path is empty, `..` or contains a separator |
| StatsWindow.SystemRuntimeStats.RecordBucket | src/state.rs:837-863 | The loops compute the recorded buckets, and the buckets are always those of the whole log |
| StatsWindow.SummarizeWindow | src/state.rs:979-997 | The loop computes the summary of the buckets from the start of the window |
| StatsWindow.WindowReaches | src/state.rs:979-981 | The window is the given number of minutes up to and with the current one |
| StatsWindow.WindowIsExact | src/state.rs:837-997 | With a clock that never goes back, every window of up to sixty minutes equals the counts, latency sum and maximum over the full log, cut off at the largest 64-bit number; buckets are at most sixty and sorted |
| StatsWindow.BucketsAgree | src/state.rs:837-863 | The same as an invariant of every log, eviction included |
| StatsWindow.EvictedSummary | src/state.rs:854-862 | No eviction touches a window of the last sixty minutes |
| Tables.InsertKeepsStats | src/storage/schema.rs:331-338 | The insert trigger keeps count and byte sum, NULL exactly where a NULL size took part |
| Tables.DeleteKeepsStats | src/storage/schema.rs:340-346 | So does the delete trigger |
| Tables.UpdateKeepsStatsIff | src/storage/schema.rs:348-353 | An update keeps the statistics right if and only if it leaves the collection as it is |
| Tables.InsertKeepsMirror | src/storage/schema.rs:715-717 | The full-text insert trigger keeps the mirror sound, and complete when it was |
| Tables.DeleteKeepsMirror | src/storage/schema.rs:718-720 | So does the delete trigger |
| Tables.UpdateKeepsMirror | src/storage/schema.rs:721-724 | So does the update trigger |
| Tables.ReindexMirrors | src/storage/schema.rs:741-753 | After a reindex the mirror is sound and complete, whatever it held before |
| Reaper.Database.ReapConn | src/storage/reaper.rs:50-129 | The statements in order; live and archive rows are conserved against the three counters |
| Reaper.Database.DeleteExpired | src/storage/reaper.rs:91-121 | A DELETE removes the matching rows one by one, each with its triggers, and counts them |
| Reaper.Database.MoveToArchive | src/storage/reaper.rs:64-77 | The copied columns of every document taken by the archive, in table order |
| Reaper.Database.ReindexFts | src/storage/schema.rs:741-753 | The table is created, emptied and refilled from every document |
| Reaper.ReapEffect | src/storage/reaper.rs:55-129 | Live documents, archive and transitions after a reap, each as a function of what was there before |
| Reaper.ReapPartitions | src/storage/reaper.rs:55-121 | No expired live document remains and no other is lost; no pending transition remains for an archived document and none at all for a deleted one |
| Reaper.ReapArchives | src/storage/reaper.rs:64-129 | The archive holds exactly the unexpired of its old rows and of the rows copied from the documents taken |
| Reaper.ArchivedDocument | src/storage/reaper.rs:62-75 | An expired document that is to be archived leaves the live table for a row with its columns, the transaction and an expiry of none or now plus the lifetime |
| Reaper.ArchiveGainsOnly | src/storage/reaper.rs:62-129 | The archive gains no row for an id unless a document of that id was archived, and loses exactly what has expired |
| Reaper.DocumentStays | src/storage/reaper.rs:91-121 | A document stays if and only if it has no expiry or one still to come |
| Reaper.TransitionsOfDocument | src/storage/reaper.rs:77-111 | The transitions of an archived document are cancelled when pending, those of a deleted one are gone, the others stay |
| Reaper.ReapTwice | src/storage/reaper.rs:55-129 | A second reap at the same time changes nothing |
| Reaper.ZeroLifetime | src/storage/reaper.rs:56-129 | With an archive lifetime of zero the same reap deletes again what it archived |
| Reaper.ReapKeepsAgreement | src/storage/reaper.rs:91-121 | A reap keeps the statistics and the full-text mirror |
| Reaper.RunsAgree | src/storage/schema.rs:331-353 | After every run of inserts, deletes, in-place updates and reaps the statistics equal the recomputed ones and every full-text row is the projection of its document |
| Reaper.RunsGoOn | src/storage/schema.rs:331-353 | No reap, reindex or switch ends a run, and no insert, delete or update that keeps to the keys does |
| Reaper.CompleteSinceReindex | src/storage/schema.rs:711-753 | From a reindex on the mirror stays complete until it is switched off |
| SystemMeta.Schema.EnsureSystemMeta | src/storage/schema.rs:370-385 | The index exists afterwards exactly when the server allows it and the database had it enabled, and the configuration says so |
| SystemMeta.FlagIsOn | src/storage/schema.rs:674-695 | A flag is on for `1` and for `true` in any case, with white space around it, and for nothing else |
| LocalEngine.LocalEngine.GetConn | src/storage/local.rs:49-102 | Hits and new connections are stamped with the time, a miss opens, or fails after making room; when full exactly one connection is closed, the one whose last successful call is longest ago; the cap holds |
| LocalEngine.LocalEngine.EvictLruIfNeeded | src/storage/local.rs:423-463 | Nothing happens below the cap; at the cap exactly the connection got longest ago goes |
| LocalEngine.LocalEngine.FindVictim | src/storage/local.rs:431-447 | The search finds a least recent open database |
| LocalEngine.LongestAgoComesFirst | src/storage/local.rs:431-447 | With a clock that does not go back, longest ago by time is first by the order of the calls |
| LocalEngine.LocalEngine.CloseIdleDbs | src/storage/local.rs:283-308 | Exactly the databases not accessed since the threshold are closed, and counted |
| LocalEngine.LocalEngine.DeleteDb | src/storage/local.rs:252-281 | A missing file is an error without effect; otherwise the connection, its access time and the file go |
| ConnectionCap.CapHolds | src/storage/local.rs:49-102 | With at most K opens in flight, open connections and opens past their check never exceed the cap minus one plus K; with one at a time the cap is exact |
| ConnectionCap.CapIsReached | src/storage/local.rs:71-100 | For every cap and every number of opens in flight some run reaches that bound |
| ConnectionCap.CapHoldsIff | src/storage/local.rs:49-102 | The cap holds in every run if and only if at most one open is in flight |
| ConnectionCap.OpenedAndClosedBy | src/storage/local.rs:49-102 | Only an open past its check adds its database, and only an eviction at the cap or a close removes one |
| ConnectionCap.OpensGoOn | src/storage/local.rs:49-102 | An open in flight can always go on, by making room, passing its check or ending |
| BackupRetention.BackupDir.Prune | src/storage/local.rs:885-914 | The sort, keep and remove loops remove exactly the files of the entries beyond the kept prefix |
| BackupRetention.PruningKeepsNewest | src/storage/local.rs:893-906 | The kept entries are a prefix of the newest-first order, at most the count and at least one, none older than the days, and the next one is beyond the count or older |
| BackupRetention.EqualsKeepOrder | src/storage/local.rs:893 | Entries of the same time stay in the order of the listing |
| BackupRetention.PruningTwice | src/storage/local.rs:885-914 | Pruning the kept entries again at the same time, listed in any order, removes no file |

## Left out

- SQLite and libSQL themselves: JSON functions, type affinity, LIKE and REGEXP on column values, VACUUM, `INSERT OR REPLACE`, integer overflow. They are arbitrary functions in the filter model and plain steps in the table model.
- Hash values: aliases are assumed distinct, and file and cache names by digest are not modelled.
- The handlers behind the dispatcher, `supports_accepted_ack_request`, `resolve_ack_mode`, request checks before a write is queued, and the content of previews: a write has one of three first modes, and applying it or previewing it succeeds or fails.
- Response flags of the operations that leave the dispatcher early, such as `delete_db`: an acknowledgement is a reply with or without `committed`.
- Worker panics, fairness and real clocks; sharding of the concurrent maps. Every step is atomic, so the gap between comparing and removing inside `clear_pending_if_current` is not modelled.
- WriteQueuePending.WhatStaysPending: says nothing once a database's runtime state has been cleared, because clearing may remove entries of writes still at work.
- 64-bit wrap-around of the pending revision counter, and of the archive lifetime when it is cast to a signed number.
- StatsWindow.WindowIsExact: assumes, as the source does, that the clock does not go back between two recordings; rates and averages computed from the summary are left out. `record_bucket` reads the minute before it takes the lock (src/state.rs:838); the model records in one step.
- JqlTheorems.TextMeansFilter: takes a path with several `[]` as its full-key pattern, because its documented meaning is false of the code; `JqlNested.NestedWildcards` relates the two.
- JqlCorrect.TreeFieldCorrect: likewise.
- JqlNested.NestedWildcards: how `json_tree` spells a label in a full key is a parameter; the equivalences are for paths of words without `_` and for labels spelled without `.`, `[` and `]`.
- JqlMeaning.PatternsByName: wildcards inside the client's own pattern keep the meaning LIKE gives them.
- Reaper.RunsAgree: covers updates that leave the collection as it is; `Tables.UpdateKeepsStatsIff` shows that no other update keeps the statistics.
- The reaper's statements on metric events, identity statuses and identity tokens, each a separate statement with its own clock, and the merging of its counters.
- The schema's migrations and the retry loop of `init_schema_with_retry`.
- LocalEngine.LocalEngine.GetConn: treats the file system and the schema initialization as inputs; the per-database lock shows only as the connection that another open of the same database may have inserted.
- Remote storage, the system catalogue, automatic indexes, HTTP, authentication and the admin interface.
