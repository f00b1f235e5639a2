# Verified model of a Go service SDK

This project models the five parts of the SDK that hold real algorithms or concurrent
protocols, and proves properties of them for every input, every interleaving and every
sequence of replies. `dafny verify dfyconfig.toml` checks all of it.

**Named-query binding (`db/bind.go`).** `SqlScanner`, `SqlScanLoops`, `SqlOpeners`,
`SqlMarks`, `SqlTemplate`, `SqlFinish`, `SqlBind`, `SqlBindLoops`. Binding is a pipeline in which every
stage edits text that the next one scans again: protect casts, protect the colons of literals,
protect stray colons, bind the names, restore, expand slices, number the placeholders. The
model cuts a query into pieces (`Lex`), once as the scanner sees it and once as its author
reads it (`Template`), and says for each edit whether it moves a literal boundary. Protection
never does (`SqlTemplate.ProtectedTextLexes`) and can be undone exactly on the queries without
sentinels (`SqlTemplate.ProtectionIsLossless`), and slice expansion never does
(`SqlBind.ExpansionLexes`). Binding and numbering do not if and only if a condition on the
query holds, which a caller can check before the call: `SqlFinish.FinishedLexes` says for every
query, every placeholder syntax and every size of every slice that the scanner cuts the
finished text as the template says, each mark read byte by byte outside literals, exactly when
every parameter is mark safe. Mark safe (`SqlFinish.MarkSafe`) means that the text behind the
parameter opens the same literal after its mark as after its name, and that no `$` at a token
boundary followed by tag bytes only stands right before a `$` mark. `SqlFinish.BoundTextLexes`
is the case of `?`, where the condition is `BoundarySafe`. `SqlBind.BindIsReference` (the staged
pipeline gives the result that the template alone prescribes, errors included) and
`SqlBind.FinishedQuery` put it together: the arguments are the flattened values in order, the
text is the query with a group of marks for each parameter and every other byte kept, it has
one mark per argument, the k-th carries the number k and stands for the k-th argument, and the
scan of it is as above. `SqlBind.PlainQueryIsRead` gives a range that is told at
a glance. `SqlOpeners` spells out in characters, apart from the classes and the table that the
scanner uses, what opens a literal in each dialect, where it ends and what a name is. Bytes are
modelled as characters.

**Cron engine (`cron/engine`).** `CronEngine` is a step relation over any number of engines,
their runs, the grants of a shared lock with a time to live, and a clock. `CronRun` holds the
engine object with its critical sections and one uninterrupted run through the middleware
chain, each tied to the same functions on the engine that the step relation uses. The
assumptions are those of the original: the lock grants a key only when no unexpired,
unreleased grant of it exists, and a handler is over less than the 15 second buffer after its
context deadline.

**Config cache (`confloader/confloader.go`).** `ConfCache` is one entry with its two locks,
shared by readers, pollers and marks that bypass the fetch lock. The specification is a list of
applied outcomes. `ConfFetch` holds the entry object, the fetch loop and the fallback.
Two places where code and prose differ follow the code: a value that does not parse is not
retried, although the comment at lines 416-417 says so, and a cold entry whose first fetch
fails is not fetched again on read (`ConfFetch.ColdFailureSticks`), although the package README
says that a missing entry is fetched from the source.

**NATS (`nats`).** `NatsSubjects` is the subject algebra: `covers` decides inclusion of subject
languages and `PatchStream` merges a layout into a stream. `NatsOverlap` says when the merged
stream is free of overlapping subjects. `NatsRouting` follows a tag from
publisher to handler. `NatsProducer` and `NatsPublish` are asynchronous publishing over cycles
of Start and Shutdown; `NatsConsumer` and `NatsHandler` are delivery, heartbeat, settlement and
quiesce.

**HTTP retries (`rest/client/middleware.go`).** `RestDelay` is the 64-bit arithmetic of the
backoff and of Retry-After (section 10.2.3 of RFC 9110), with wrap-around written out.
`RestRetry` is the bounded loop under a time budget, with the idempotent methods of section
9.2.2 of RFC 9110. `Wrappers`, `Counting` and `Runs` are shared helpers.

Each step relation is a machine `M()`. `Runs.Can` and `Runs.Play` take any list of its steps,
`Runs.Reachable` is what some list of steps leads to from an empty start, and `ReachableInv` says
what every such state keeps.

Some expected properties are false of the code. Each is given with an input that shows it and,
where there is one, the exact condition:

- Binding can move a literal boundary: in `:e'\'...` the name reads as the prefix of an
  escape string before binding and not after (`SqlBind.EscapePrefixMoves`); the condition is
  `BoundarySafe`.
- Numbering can move one too: `$:a` becomes `$$1` on PostgreSQL, which is one dollar-quoted
  string (`SqlFinish.DollarMarkFails`, `SqlBind.DollarMarkSwallowed`); the condition is
  `MarkSafe`.
- A bare `?` outside literals is counted as a placeholder (`SqlBind.BareMarkExample`); counts
  and arguments match if and only if there is none (`SqlBind.MarksMatchArguments`).
- On-read fetches are not bounded by the cold start and the stale outcomes alone: a backend
  call that panics lets the next reader fetch too. The exact bound counts those panics, and is
  attained for every number of them (`ConfCache.ReadsCoalesce`, `ConfCache.PanicsCount`).
- A patch can leave overlapping subjects: `*.x` stays beside `a.>`
  (`NatsOverlap.PartialOverlapStays`). It leaves none if and only if every old subject is
  disjoint from each layout subject or comparable with it (`NatsOverlap.PatchIsDisjointIff`).
- `*` beside other tags drops untagged messages, and topic `schedules` receives its own
  schedules (`NatsRouting.MixedStarDropsUntagged`, `NatsRouting.SchedulesAreSkipped`).
- A second `Stop` answers nil at once, also while a handler executes
  (`CronEngine.LatchIsNoGuarantee`): nothing runs then if and only if the active count is zero,
  which is sure once the first `Stop` has answered nil (`CronEngine.SecondStopHolds`).

## Model

| member | source | states |
|---|---|---|
| `SqlScanner.LexIsLossless` | db/bind.go:119-139 | cutting any query into literals and single bytes loses and adds nothing |
| `SqlScanner.LitKeeps` | db/bind.go:70-139 | a literal keeps its end when casts and colons inside it are replaced by their sentinels and the text after it changes from its first byte that opens nothing |
| `SqlScanner.LitStays` | db/bind.go:119-139 | a literal keeps its end whatever follows it, up to one more quote |
| `SqlScanLoops.QuotedEndsAtFirstCloser` | db/bind.go:304-323 | a quoted run ends at its first closing quote, counting escapes and doubled quotes independently of the scan, or at the end of the query |
| `SqlScanLoops.BlockEndsAtBalance` | db/bind.go:334-354 | the scan ends after the first whole units that close one comment more than they open, and runs to the end only when no prefix does |
| `SqlScanLoops.BlockEndIsUnique` | db/bind.go:334-354 | the text leaves one such place |
| `SqlScanLoops.PlainBlockEndsAtCloser` | db/bind.go:334-354 | where comments do not nest, the end is just past the first `*/`, or the end of the query |
| `SqlScanLoops.BlocksBalance` | db/bind.go:334-354 | closing a + b levels is closing a and then, in what is left, b: a comment inside a comment is skipped as a whole |
| `SqlScanLoops.FindIsFirst` | db/bind.go:380-384 | the closing dollar delimiter is the first occurrence of the tag, and none is missed |
| `SqlScanLoops.LookBehind` | db/bind.go:360-404 | the scanner's memory of the text behind decides the two look-behind tests of the index form |
| `SqlScanLoops.HolesAreMarksOutside` | db/bind.go:262-302 | the placeholders are exactly the `?` that lie in no literal region |
| `SqlScanLoops.HoleIndexesIncrease` | db/bind.go:271-302 | placeholder offsets come in strictly increasing order |
| `SqlScanLoops.SkipQuoted` | db/bind.go:307-323 | the index loop ends where the specification says, past its start and within the query |
| `SqlScanLoops.SkipLineComment` | db/bind.go:327-332 | the comment ends just past its first newline or at the end of the query |
| `SqlScanLoops.SkipBlockComment` | db/bind.go:336-354 | the depth loop ends at the balancing closer, as read off the text, within the query |
| `SqlScanLoops.SkipDollarQuoted` | db/bind.go:360-385 | opens exactly at a token boundary with a legal tag, and ends past the matching delimiter |
| `SqlScanLoops.LiteralEnd` | db/bind.go:119-139 | returns the end of the one literal that starts at the index, or the index |
| `SqlScanLoops.ScanAt` | db/bind.go:274-299 | the second copy of the scanner agrees with the first at every index |
| `SqlScanLoops.PlaceholderIndexes` | db/bind.go:271-302 | returns exactly the holes of the cut, whose regions are those of literalEnd iterated |
| `SqlOpeners.SingleQuoteOpens` | db/bind.go:393-404 | a single quote opens in every dialect; a backslash escapes in it for MySQL always and for PostgreSQL iff an E that starts a token precedes it |
| `SqlOpeners.DoubleQuoteOpens` | db/bind.go:123-124 | a double quote opens in every dialect, with backslash escapes for MySQL only |
| `SqlOpeners.BacktickOpens` | db/bind.go:125-126 | a backtick opens for MySQL only, without backslash escapes |
| `SqlOpeners.HashOpens` | db/bind.go:127-128 | `#` starts a line comment for MySQL only, up to the first newline |
| `SqlOpeners.DashOpens` | db/bind.go:410-426 | `--` starts a line comment, for MySQL iff the query ends or one of six named bytes follows |
| `SqlOpeners.SlashOpens` | db/bind.go:131-132 | `/*` opens a block comment in every dialect, which ends where its units balance and nests for PostgreSQL only |
| `SqlOpeners.DollarOpensAt` | db/bind.go:356-389 | `$` opens iff, for PostgreSQL, it heads a `$tag$` at a token boundary whose tag starts with no digit; the string ends with the first repeat of that opener or with the query |
| `SqlOpeners.OthersOpenNothing` | db/bind.go:119-139 | no other byte opens anything |
| `SqlOpeners.NamesAre` | db/bind.go:92-94 | outside literals a parameter is `:` and a letter, an underscore or a byte above 0x7F; a cast is `::`; the name runs as far as word bytes and dots go |
| `SqlOpeners.SentinelsAre` | db/bind.go:13-26 | the sentinels are the bytes 0x00 and 0x01 |
| `SqlTemplate.StagedIsGuarded` | db/bind.go:52-114 | the three stages run on edited text give the protected form of the template of the original text |
| `SqlTemplate.TemplateIsLossless` | db/bind.go:44-65 | the pieces of the template are the query, byte for byte |
| `SqlTemplate.ProtectionIsLossless` | db/bind.go:52-114 | the colons left are exactly those of parameters, and restoring gives the query back if and only if it has no sentinel |
| `SqlTemplate.ProtectedTextLexes` | db/bind.go:67-139 | protection moves no literal boundary: for every query the scanner cuts the protected text as the template, each literal sealed, each cast and stray colon its sentinel, each parameter byte by byte |
| `SqlTemplate.BindNamesOfTemplate` | db/bind.go:52-55 | binding the protected text meets the template's names in order, and fails only where one parameter runs into another |
| `SqlMarks.LexGroup` | db/bind.go:178-260 | wherever the marks of an argument stand, in any syntax, the scanner reads them byte by byte |
| `SqlMarks.MarkShows` | db/bind.go:243-255 | mark k is `$`, `@p` or `:arg` and the digits whose place value is k, without leading zeros, or `?` |
| `SqlMarks.DecimalIsUnique` | db/bind.go:246 | a number has one such digit text |
| `SqlMarks.GroupExample` | db/bind.go:185-191 | `, ` stands between the marks of one argument |
| `SqlFinish.FinishedLexes` | db/bind.go:44-65 | the scanner cuts the finished text as the template says, every mark outside literals, if and only if every parameter is mark safe: for every query, syntax and group size (scan at lines 119-139 and 271-302) |
| `SqlFinish.EveryOtherByteIsKept` | db/bind.go:44-65 | query and finished text are the same texts, woven with the names in the one and the marks in the other |
| `SqlFinish.QuestionSafe` | db/bind.go:228-231 | for `?` marks mark safe and boundary safe are the same |
| `SqlFinish.ApartIsSafe` | db/bind.go:360-404 | a query where no name is directly followed by a quote or `$`, and with no lone `$` where marks start with it, is safe |
| `SqlFinish.DollarMarkFails` | db/bind.go:360-385 | `$:n` is boundary safe and not mark safe, and its finished text is one literal |
| `SqlFinish.BoundTextLexes` | db/bind.go:52-57 | re-scanning the bound text finds the template's regions and placeholders if and only if every parameter is boundary safe |
| `SqlFinish.FinishMoves` | db/bind.go:360-404 | where the text behind changes what opens, the finished text is cut differently |
| `SqlBind.ExpansionLexes` | db/bind.go:146-302 | replacing each `?` by `?, ?, ...` changes no literal region and leaves exactly the widened placeholders, for every query and widths |
| `SqlBind.RebindFills` | db/bind.go:228-260 | for every driver, rebinding puts mark k in place of placeholder k, showing the number k, and copies the rest |
| `SqlBind.FlattenAt` | db/bind.go:180-198 | the flat arguments keep the order of the arguments, and of each slice |
| `SqlBind.ExpandFails` | db/bind.go:146-176 | which error expansion gives, and when: a failing Valuer, then an empty slice, then a count that does not match if there is a slice |
| `SqlBind.ReferenceFails` | db/bind.go:52-55 | binding is unreadable iff two parameters adjoin, and lacks a name iff some parameter is not known |
| `SqlBind.OutlineHolds` | db/bind.go:178-201 | the slots of the outline carry the flattened arguments, in order and numbered without gaps |
| `SqlBind.SlotsAt` | db/bind.go:178-201 | each slot gives its value and its number in its place, kept text none |
| `SqlBind.CountIs` | db/bind.go:241-246 | the numbers count up by one |
| `SqlBind.OutlineIsStamped` | db/bind.go:228-260 | the text of the outline is the template with a group of numbered marks for each parameter |
| `SqlBind.NumberedIsOutline` | db/bind.go:228-260 | numbering the widened template gives the outline's text |
| `SqlBind.TemplateHoles` | db/bind.go:52-57 | the placeholders of a bound text are its parameters and the bare marks |
| `SqlBind.BindIsReference` | db/bind.go:44-65 | end to end the staged pipeline equals the reference result, errors included (stages at lines 146-260) |
| `SqlBind.FinishedQuery` | db/bind.go:44-65 | every successful result: one mark per argument, mark k numbered k and standing for the k-th flattened argument, every other byte kept, and all of it read back so by the scanner if and only if mark safe |
| `SqlBind.PlainQueryIsRead` | db/bind.go:44-65 | on queries that are safe at a glance the scanner reads the finished text as the template says |
| `SqlBind.DollarMarkSwallowed` | db/bind.go:228-260 | `$:n` on PostgreSQL gives one argument and a text that is one dollar-quoted string |
| `SqlBind.MarksMatchArguments` | db/bind.go:146-202 | placeholders and arguments agree in number if and only if the author wrote no bare `?` |
| `SqlBind.BareMarkExample` | db/bind.go:146-302 | the query `?` has a placeholder and no argument |
| `SqlBind.EscapePrefixMoves` | db/bind.go:393-404 | a name that ends in `e` before a quote is not boundary safe |
| `SqlBindLoops.ProtectColons` | db/bind.go:100-114 | the builder loop seals the colons of literals and of nothing else |
| `SqlBindLoops.ProtectStrayColons` | db/bind.go:79-90 | the loop seals exactly the colons no name start follows |
| `SqlBindLoops.Splice` | db/bind.go:178-259 | the copy loop of both rewriters replaces hole k by filling k and keeps every other byte |
| `SqlBindLoops.ResolveInPlace` | db/bind.go:146-155 | the argument array ends with every Valuer replaced in place, or fails exactly when one of them does |
| `SqlBindLoops.CheckSlices` | db/bind.go:157-168 | finds an empty slice iff there is one, and otherwise whether there is any slice |
| `SqlBindLoops.ExpandSlices` | db/bind.go:146-202 | returns the expansion of the query and arguments as they were on entry, errors in the source's order |
| `SqlBindLoops.RebindMarks` | db/bind.go:228-260 | the loop computes the rebinding of the query |
| `SqlBindLoops.BindQuery` | db/bind.go:44-65 | nil leaves the query as written; otherwise the staged result, which in the supported range is the reference result with every promise of a finished query |
| `CronEngine.ReachableInv` | cron/engine/engine.go:168-275 | every interleaving of admissions, contexts made later, panics before and behind the guard, chain steps, lock replies, stops and time keeps the counts, the guard, the grants and the clock bound |
| `CronEngine.MutualExclusion` | cron/engine/middleware.go:227-294 | no two replicas with a locker, and no two runs of one engine, execute a job's handler at once |
| `CronEngine.HolderIsLive` | cron/engine/middleware.go:255-294 | while a handler executes under a grant, that grant is its own, unreleased and unexpired |
| `CronEngine.UnlockedOnce` | cron/engine/middleware.go:255-294 | every granted token is unlocked never before its owner is done and exactly once when it has left |
| `CronEngine.InFlightIffOneRun` | cron/engine/middleware.go:227-237 | a job is in the in-flight set iff exactly one run is past the guard |
| `CronEngine.StoppingDrains` | cron/engine/engine.go:168-275 | once stopping, no run is admitted and the active count never grows, over any later steps |
| `CronEngine.StopIsFinal` | cron/engine/engine.go:241-275 | when the first Stop has returned nil, no admitted run is unfinished, and none is ever admitted or changed later |
| `CronEngine.LatchIsNoGuarantee` | cron/engine/engine.go:243-246 | a further Stop can answer nil while a handler executes and the first still waits |
| `CronEngine.SecondStopHolds` | cron/engine/engine.go:241-275 | when a further Stop answers nil nothing runs iff the active count is zero; after a nil answer of the first it is sure |
| `CronEngine.StopAnswers` | cron/engine/engine.go:241-275 | the first Stop latches, and can answer nil exactly when no run of the engine is unfinished |
| `CronEngine.GrantsLiveAndEnd` | cron/engine/middleware.go:255-280 | a grant lives for timeout plus 15 seconds; a successful Unlock ends it at once, a failed one does not |
| `CronEngine.GrantsExpire` | cron/engine/config.go:15-16 | a grant whose expiry has come is dead, released or not |
| `CronEngine.HandlersAreTimely` | cron/engine/engine.go:193-199 | no handler executes 15 seconds after its context deadline or later |
| `CronEngine.RunCanFinish` | cron/engine/engine.go:168-224 | from every reachable state steps of its own lead a run to its end |
| `CronEngine.LockedRunHandles` | cron/engine/middleware.go:255-294 | when no live grant of its job exists, a guarded run gets to its handler under a grant |
| `CronRun.Engine.Register` | cron/engine/engine.go:123-153 | a job is stored iff the engine is neither running nor stopping and the job is new and well formed |
| `CronRun.Engine.Start` | cron/engine/engine.go:227-236 | starts unless stopping |
| `CronRun.Engine.BeginStop` | cron/engine/engine.go:241-251 | only the first call latches and goes on to wait; a further one answers nil and changes nothing |
| `CronRun.Engine.Admit` | cron/engine/engine.go:174-181 | the stopping check and the count are one atomic admission |
| `CronRun.Engine.LoadOrStore` | cron/engine/middleware.go:229-235 | reports and adds a name in one step |
| `CronRun.Engine.RecoveredHandler` | cron/engine/middleware.go:181-200 | a handler panic becomes an error below the locker |
| `CronRun.Engine.LockerStage` | cron/engine/middleware.go:255-294 | with a token the calls are lock, handler, unlock, also when the handler or the code before it panics |
| `CronRun.Engine.TogglerStage` | cron/engine/middleware.go:239-253 | the toggler fails open: only a clean "disabled" or its own panic stops the run |
| `CronRun.Engine.RunJob` | cron/engine/engine.go:168-224 | every path, panics included, leaves the count and the in-flight set as found; says exactly when the handler is reached, and the error of every path |
| `CronRun.Engine.GuardStage` | cron/engine/middleware.go:229-237 | a name in flight is skipped, and a stored name is removed however the rest ends |
| `CronRun.Engine.Trigger` | cron/engine/engine.go:156-166 | an unknown job is refused without a call; nil comes back iff the handler ran, returned nil and the unlock did not panic |
| `ConfCache.SettleReflects` | confloader/confloader.go:378-511 | each applied outcome keeps the fields equal to the summary of the history of outcomes |
| `ConfCache.AnswerIsLastOutcome` | confloader/confloader.go:85-120 | a read gives the last outcome's value or exactly its error; an entry is stale iff its last outcome is no success and no absence and some earlier one was a success; a refresh is needed iff cold or stale |
| `ConfCache.EntryReflectsHistory` | confloader/confloader.go:85-120 | in every reachable state the entry is what its history of outcomes says (with lines 361-413 and lines 504-511) |
| `ConfCache.AnswersReflectOutcomes` | confloader/confloader.go:85-111 | every answer is the outcome that was last when it was read, and a reader that found the entry cold or stale gets a newer one than it found (with lines 361-413) |
| `ConfCache.ReadsCoalesce` | confloader/confloader.go:361-511 | on-read fetches are at most one plus the outcomes that left the entry stale plus the on-read fetches that panicked |
| `ConfCache.DriftsCount` | confloader/confloader.go:396-398 | an outcome counts as leaving the entry stale iff it is no success and no absence and some success came before |
| `ConfCache.PanicsCount` | confloader/confloader.go:361-376 | the bound is attained for every number of panics, so the panics cannot be left out |
| `ConfCache.ThreadCanEnd` | confloader/confloader.go:361-413 | a thread that does not wait for the fetch lock gets to its end by its own steps, and a reader ends with an answer |
| `ConfCache.LockCanBeFreed` | confloader/confloader.go:361-366 | whoever holds the fetch lock can be led to give it back |
| `ConfFetch.FetchRetried` | confloader/confloader.go:439-468 | at most retries + 1 calls; only transient failures are retried; the last reply decides: a parsed value with its revision, a parse failure that is no absence, an absence exactly for an absent key |
| `ConfFetch.EndIsUnique` | confloader/confloader.go:439-468 | the backend's replies leave one possible number of calls and one outcome |
| `ConfFetch.FetchWithFallback` | confloader/confloader.go:418-435 | the default folder is asked iff the own folder is another one and its last reply was an absence; the outcome is that of the folder asked last |
| `ConfFetch.CacheEntry.RefreshOne` | confloader/confloader.go:361-413 | asks the backend iff forced, cold or stale, and then settles its outcome |
| `ConfFetch.CacheEntry.Mark` | confloader/confloader.go:504-511 | settles the mark |
| `ConfFetch.CacheEntry.Get` | confloader/confloader.go:85-111 | a cold or stale entry answers with what the source says now, any other with what it holds |
| `ConfFetch.MarkAllStale` | confloader/confloader.go:504-511 | every entry is marked once |
| `ConfFetch.IsStale` | confloader/confloader.go:537-547 | true iff some entry is stale |
| `ConfFetch.ColdFailureSticks` | confloader/confloader.go:391-401 | an entry that never had a success is not fetched on read and answers with its last error |
| `NatsSubjects.CoversScan` | nats/internal/wire/wire.go:131-146 | the token loop decides the covering relation |
| `NatsSubjects.CoversIsInclusion` | nats/internal/wire/wire.go:128-146 | a pattern covers another iff every concrete subject the second matches is matched by the first |
| `NatsSubjects.WildcardsAre` | nats/internal/wire/wire.go:128-130 | `*` matches one token, `>` one or more, any other token itself; concrete subjects hold neither |
| `NatsRouting.CovExamples` | nats/internal/wire/wire.go:131-146 | `*.x` covers `a.x` and not conversely; `a.>` covers `a.x` and not `a` |
| `NatsSubjects.CoversReflexive` | nats/internal/wire/wire.go:131-146 | covering is reflexive |
| `NatsSubjects.CoversTransitive` | nats/internal/wire/wire.go:131-146 | covering is transitive |
| `NatsSubjects.CoversAntisymmetric` | nats/internal/wire/wire.go:131-146 | covering is antisymmetric on patterns with `>` only in last position |
| `NatsSubjects.MergeAllCarries` | nats/internal/wire/wire.go:92-101 | the merged list matches exactly the union of what the old list and the layout match |
| `NatsSubjects.ChangeIsReal` | nats/internal/wire/wire.go:92-101 | the merge reports a change iff the list differs |
| `NatsSubjects.MergeAgainIsQuiet` | nats/internal/wire/wire.go:92-101 | merging the same layout again changes nothing |
| `NatsSubjects.MergeAllIsApart` | nats/internal/wire/wire.go:82-101 | a pairwise non-covering list stays so |
| `NatsSubjects.MergeKeepsOrder` | nats/internal/wire/wire.go:77-101 | survivors come first in their old order, additions after them in layout order |
| `NatsSubjects.SubsequencePlaces` | nats/internal/wire/wire.go:82-83 | what is kept stands at increasing places of the old list |
| `NatsSubjects.PatchStream` | nats/internal/wire/wire.go:87-126 | refuses iff a setting is incompatible, otherwise merges; the changed flag is set iff the configuration differs |
| `NatsSubjects.PatchIsMerge` | nats/internal/wire/wire.go:62-108 | any accepted patch is the union, keeps order and separation, and patching again changes nothing |
| `NatsOverlap.MeetsIsOverlap` | nats/internal/wire/wire.go:77-83 | the token test holds iff some concrete subject matches both patterns |
| `NatsOverlap.MergeIsDisjointIff` | nats/internal/wire/wire.go:92-101 | merging lists without overlaps gives one iff every old and new subject are disjoint or comparable |
| `NatsOverlap.LayoutIsDisjointIff` | nats/internal/wire/wire.go:55-68 | the layout of a topic overlaps itself iff the topic is `schedules` |
| `NatsOverlap.EffectiveMerges` | nats/internal/wire/wire.go:92-101 | for `schedules` the data subjects cover the rest of the layout, so merging them is merging all of it |
| `NatsOverlap.PatchIsDisjointIff` | nats/internal/wire/wire.go:77-108 | a patched stream has no overlap iff each old subject is disjoint from each layout subject or comparable with it |
| `NatsOverlap.PartialOverlapStays` | nats/internal/wire/wire.go:77-101 | `*.x` and the data subjects of a topic are neither, and the patch keeps both |
| `NatsRouting.BuildFilterSubjects` | nats/consumer/config.go:178-195 | the loop builds one filter per tag, or the data subjects |
| `NatsRouting.RoutingIsExact` | nats/consumer/config.go:178-195 | for every tag the producer accepts, a message is selected iff everything is asked for, the normalised tag is listed, or `*` or `>` is and the message is tagged (with `nats/producer/producer.go` lines 481-486) |
| `NatsRouting.MixedStarDropsUntagged` | nats/consumer/config.go:184-192 | several tags, none of them bare, do not select untagged messages, `*` included |
| `NatsRouting.SchedulesAreSkipped` | nats/internal/wire/wire.go:53-75 | a schedule subject is selected iff the topic is `schedules` and every tag is asked for (with `nats/consumer/config.go` lines 178-195) |
| `NatsRouting.StreamStoresTopic` | nats/internal/wire/wire.go:55-75 | the layout stores everything the topic publishes, data and schedules |
| `NatsRouting.TagRoundTrip` | nats/producer/producer.go:491-503 | the handler reads back the tag that was published (with `nats/consumer/handler.go` lines 77-82) |
| `NatsRouting.TagFromSubject` | nats/consumer/handler.go:77-82 | without the header the subject gives the tag iff it is empty or not the topic |
| `NatsProducer.ReachableInv` | nats/producer/producer.go:301-421 | every interleaving of cycles and publishes keeps counts, cycles and each publish's accounting (with lines 466-477) |
| `NatsProducer.StartIsReachable` | nats/producer/producer.go:210-228 | a new producer with no cycle is a reachable state |
| `NatsProducer.AcquireIff` | nats/producer/producer.go:466-477 | a publish is counted iff there is a current cycle and it serves the topic, in that cycle |
| `NatsProducer.PendingCounts` | nats/producer/producer.go:301-330 | a cycle's pending count is its accepted publishes whose callbacks have not returned, plus those between Add and the transport's answer or between return and Done (with lines 466-477) |
| `NatsProducer.PublishedOnce` | nats/producer/telemetry.go:177-200 | each publish finishes its span once and, if accepted, calls back once; a failed one never calls back |
| `NatsProducer.ShutdownSeesAll` | nats/producer/producer.go:388-410 | after a passed wait every publish of the cycle is over, and none joins it later |
| `NatsProducer.LeftoversStayHome` | nats/producer/producer.go:314-410 | a publish that outlives its cycle changes no other cycle and no other publish |
| `NatsProducer.PublishCanEnd` | nats/producer/producer.go:301-330 | from every reachable state steps of its own lead a publish to its end, an accepted one through its callback |
| `NatsProducer.CyclesEnd` | nats/producer/producer.go:336-410 | Start opens a cycle, Shutdown clears it, and its wait can pass exactly when every publish of it is over |
| `NatsPublish.Producer.Register` | nats/producer/producer.go:232-250 | stores a valid new topic, and only while not started |
| `NatsPublish.Producer.Start` | nats/producer/producer.go:336-382 | a new cycle with all topics or none; a started producer is left alone |
| `NatsPublish.Producer.BeginShutdown` | nats/producer/producer.go:388-396 | the run is cleared and handed to the one caller that waits for it |
| `NatsPublish.Producer.Acquire` | nats/producer/producer.go:466-477 | counts one publish in the current cycle iff it serves the topic |
| `NatsPublish.Producer.PublishAsync` | nats/producer/producer.go:301-330 | accepted: counted and the span open; refused: nothing counted and the span finished once (with `nats/producer/telemetry.go` lines 177-200) |
| `NatsPublish.LateAck` | nats/producer/producer.go:314-396 | a late ack after Shutdown and Start leaves the new cycle untouched and finishes and calls back once |
| `NatsConsumer.ReachableInv` | nats/consumer/consumer.go:57-111 | every interleaving of deliveries, handlers, heartbeats and shutdown keeps slots, group and logs (with `nats/consumer/handler.go` lines 131-190) |
| `NatsConsumer.StartIsReachable` | nats/consumer/consumer.go:57-59 | a consumer without deliveries is a reachable state, whatever its settings |
| `NatsConsumer.SettledOnce` | nats/consumer/handler.go:131-206 | a delivery gets heartbeats and then exactly one terminal signal: ack for success, term for ErrNoRetry, a nak with the backoff for a failure or a panic, and a plain nak without the handler (with `nats/consumer/middleware.go` lines 153-198) |
| `NatsConsumer.AtMostMaxConcurrent` | nats/consumer/consumer.go:57-72 | at most MaxConcurrent handlers execute at once |
| `NatsConsumer.NothingAfterSettling` | nats/consumer/handler.go:153-190 | nothing is sent about a delivery after its terminal signal |
| `NatsConsumer.QuiesceIsFinal` | nats/consumer/consumer.go:90-111 | after a nil quiesce every delivery is settled and gone, and none follows |
| `NatsConsumer.CancelledMeansSkipped` | nats/consumer/handler.go:144-149 | once the run context is cancelled, a delivery not yet cleared is nak'd without its handler |
| `NatsConsumer.DeliveryCanEnd` | nats/consumer/consumer.go:57-72 | from every reachable state steps of its own settle a delivery with a slot and give the slot back |
| `NatsConsumer.QuiesceIff` | nats/consumer/consumer.go:90-111 | a quiesce can answer nil exactly when intake is closed and every delivery is gone |
| `NatsConsumer.IntakeMoves` | nats/consumer/consumer.go:90-111 | what drain, close, quiesce and cancellation change |
| `NatsHandler.Adapter.SettleOutcome` | nats/consumer/handler.go:195-206 | ack, term or nak with the configured delay, by the handler's error |
| `NatsHandler.Adapter.CallHandler` | nats/consumer/handler.go:153-190 | sends heartbeats only: one per interval until the handler is over, its deadline has passed or the run context is cancelled, none without an interval |
| `NatsHandler.Adapter.HandleMsg` | nats/consumer/handler.go:131-151 | adds heartbeats and one terminal signal, and calls the handler iff there is metadata and no cancellation |
| `NatsHandler.SortedNames` | nats/consumer/consumer.go:283-285 | the registered names, each once, in strictly increasing order |
| `NatsHandler.BeforeIff` | nats/consumer/consumer.go:282-283 | names are ordered by the first byte that differs, a prefix first |
| `NatsHandler.Consumer.Register` | nats/consumer/consumer.go:227-264 | stored iff not started, valid and new |
| `NatsHandler.Consumer.Start` | nats/consumer/consumer.go:271-315 | exactly the registered consumers run, in name order, or every connection made is closed and nothing changes |
| `NatsHandler.Consumer.Shutdown` | nats/consumer/consumer.go:320-336 | takes the running consumers once and closes them all |
| `NatsHandler.ShutdownAll` | nats/consumer/consumer.go:339-347 | closes every consumer of the list |
| `RestDelay.CapIsMin` | rest/client/middleware.go:357-366 | the jitter bound is min(max, base * 2^(n-1)) over the integers, positive, without overflow |
| `RestDelay.CapIsMonotone` | rest/client/middleware.go:357-366 | the bound never shrinks from one retry to the next |
| `RestDelay.CapDoubles` | rest/client/middleware.go:355-366 | the bound starts at the base and doubles up to the maximum |
| `RestDelay.SecondsConvert` | rest/client/middleware.go:368-391 | seconds of any size convert without overflow, exactly below the clamp; negative ones are refused |
| `RestDelay.DatesConvert` | rest/client/middleware.go:386-390 | a date means the time until then, never less than zero; neither form means nothing |
| `RestDelay.SecondsAreMonotone` | rest/client/middleware.go:378-385 | longer Retry-After values never give shorter delays |
| `RestDelay.SecondsCompare` | rest/client/middleware.go:301-385 | the comparison with any limit below the clamp is the one over the integers |
| `RestRetry.Deadline` | rest/client/middleware.go:171-214 | sends with the smaller of attempt timeout and time left, or not at all; a slower reply is a timeout; puts the caller's timeout back |
| `RestRetry.WaitFor` | rest/client/middleware.go:393-405 | waits for the timer or the context, whichever is first |
| `RestRetry.Retry` | rest/client/middleware.go:236-283 | the run it makes is legal and ends legally; a POST or other non-idempotent method without a key, or a one-shot body, is sent at most once, any other ends early only for the outcome; timeout and SkipBody are as before |
| `RestRetry.Call` | rest/client/middleware.go:67-98 | fixes the deadline from the request timeout, the context or the client timeout, refuses a bad URL unsent, and hands the rest to the retry loop |
| `RestRetry.AttemptMeans` | rest/client/middleware.go:171-214 | what an attempt comes to: its limit, its end, and the outcome of each kind of reply in time, late, or after the context ended |
| `RestRetry.NoRetryIff` | rest/client/middleware.go:289-353 | no retry is called for iff the outcome is no timeout, no repeatable transport error and none of 429, 502, 503, 504, or Retry-After exceeds its limit, or the wait would pass the deadline |
| `RestRetry.EndIsJustified` | rest/client/middleware.go:236-262 | a repeatable request ends with its last outcome only for those reasons, the attempt limit, or the end of the context |
| `RestRetry.PauseBounds` | rest/client/middleware.go:289-313 | each wait follows a retryable outcome, is the Retry-After within its limit or below the jitter bound, and ends by the deadline |
| `RestRetry.RunInBudget` | rest/client/middleware.go:67-98 | no attempt and no wait of any run ends after the deadline, and nothing is sent once the context has ended (with lines 171-195 and lines 236-262) |
| `RestRetry.RunIsSafe` | rest/client/middleware.go:236-353 | at most MaxAttempts attempts, each but the last ended with the context alive in a timeout, a repeatable transport error, or one of 429, 502, 503, 504 |

## Left out

- Libraries that are not part of this repository are represented by small assumed contracts:
  `sqlx.Named` turns each `:name` into one `?`, yields its argument, rejects a name that runs
  into another colon and copies every other byte; the NATS client closes a consume context only
  when no callback executes; the shared lock never grants a key twice at once; the HTTP
  transport ends an attempt within the request timeout it is given.
- Concurrency: what runs in several goroutines is a step relation on values, with one atomic
  step per critical section; the classes beside it hold the sequential code of the same methods.
- Liveness: that an ack, a wait group or a handler ever completes is not stated. What is stated
  is that none is stuck: steps that lead each run, publish, delivery and reader to its end exist
  in every reachable state.
- Time is a number that advances in attempts, waits and clock steps; the multiplier of the
  retry delay in `fetchRetried` and the delays themselves are not modelled.
- Reflection, parsing of configuration values and of dates, and struct arguments: an argument
  is a scalar or a list, a fetched value comes with what parsing gives.
- `lastChange` of a cache entry and the error handler callback of the config loader, which is
  taken to return.
- An async publish callback that panics, which ends the process in the original.
- How a driver reads the finished text: it is read here by the scanner of `db/bind.go`, and a
  placeholder that the author wrote in the driver's own syntax is text like any other.
- NatsPublish.LateAck: one sequence of calls; every interleaving is `NatsProducer.LeftoversStayHome`.
- ConfFetch.CacheEntry.Get: the sequential call, with the outcome of the fetch passed in; what concurrent
  readers get is `ConfCache.AnswersReflectOutcomes`.
- `sqlx` batch binding of slices of structs, DSN rendering, dialing and TLS.
- Spans, metrics, logs, attributes and the classification of errors for them, beyond the count
  of finished spans.
- Configuration defaults and validation, beyond what the delay arithmetic needs.
- `rest/server`, `redis`, `s3`, `errs`, `identity`, `errgroup`, `observability`: wrappers or
  short helpers that would add only easy members.
