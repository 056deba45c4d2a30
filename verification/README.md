# Billbird, verified

Billbird turns slash commands in GitHub comments (`/log`, `/correct`, `/delete`, `/plan`, `/unplan`)
into rows of two append-only Postgres tables, and reports planned against logged time. This project
models that core in Dafny and proves what it promises. Check everything with
`dafny verify dfyconfig.toml`.

## What is modelled

- **Commands.** The two regular expressions of the parser are written out as scanners (`Commands`) and
  proved to be what leftmost-first greedy matching prefers (`CommandLaws`); `CommandTexts` says what
  comments mean with their texts written out. Go's 64-bit integer arithmetic is explicit, so
  `hours*60 + minutes` can wrap.
- **Tables.** A table is a sequence whose index is the row id; `None` is an id that a rolled-back
  insert drew from the sequence. `TimeEntries` and `PlanEntries` hold the SQL statements as functions
  on tables, and the stores as classes whose methods are proved against these functions. Minutes that
  do not fit the `INT` column make an insert fail. `Chains` says what a supersede chain is,
  independently of the two walks that `GetCorrectionChain` and `GetChain` make.
- **The handler, one delivery at a time.** `Webhook.Handler` runs the steps of `Handle` against the
  three stores, and `HandlerEffects` tells what it does by the columns of the rows. `SerialRuns`,
  `SerialPlans` and `SerialHistory` prove what whole runs come to: a stack of entries per person and
  issue, one current plan per issue, chains that are contiguous segments. The database clock advances
  from delivery to delivery there, as it does when each is served before the next one arrives. The
  handler's own contract holds whatever the clock says: rows with the same created_at leave the choice
  between them to the database.
- **The handler, all deliveries at once.** In `Interleaving` every delivery is a process with a
  program counter; each SQL statement and each `ReplacePlan` transaction is one atomic step; any
  process may stop at any point, which covers failing statements and crashes; clock readings are
  arbitrary. `InterleavingSafety` and `InterleavedRuns` prove what every such run keeps, `Authorship`
  whose comments may change which rows, `Service` and `ServiceEffects` that no command is lost unless
  its process is stopped, `CorrectionBalance` what one correction does to the number of active rows,
  `StaleReads` what concurrent corrections can do, `ChainWalks` what a chain walk sees while others
  write, and `SerialIsInterleaved` that serial runs are among these runs.
- **Caches.** The membership cache one call at a time (`Membership`) and under concurrency
  (`MembershipConcurrency`, `MembershipAnswers`, `MembershipInvalidation`, `MembershipRounds`), the
  installation-token cache with its singleflight slot (`TokenCache`, `TokenOrigins`, `TokenResults`),
  and the throttle on `last_used_at` (`ApiTokens`).
- **Smaller cores.** The `.env` merge (`EnvFile`, `EnvFileLaws`, `EnvFileLines`), the `List` query
  builders (`Listing`), plan against actual (`PlanVsActual`, `ChainTotals`), client attribution
  (`Resolver`).

Text is a sequence of Unicode code points. GitHub's answers, the clock, hash comparison and the order
in which Postgres returns equal rows are parameters or nondeterministic choices.

## Where the code and its documentation disagree

The model follows the code.

- `docs/reference/webhook-idempotency.md:8` says every command is processed exactly once. The code
  gives at most once, and `ExactlyOnceIff` says when it is once: if and only if the process that won
  the claim was allowed to run the command and was not stopped before its last statement. A process
  that is stopped between claim and dispatch has lost the command for good, redeliveries included
  (`LostForGood`, `CommandLost`). Deliveries without an id are not deduplicated: a `/log` that comes
  twice is logged twice (`IdlessLoggedTwice`).
- `docs/reference/commands.md:160` says that text after the command line is ignored. It is if and only
  if the verb takes no argument or some non-blank follows it (`LinesAfterIgnoredIff`); a bare `/log`
  takes its duration from the next line (`BareVerbReadsOn`).
- `internal/client/resolver.go:70` speaks of the "first global match", but takes the first match of
  any kind, which may be scoped to another repository. `ResolveClient` states exactly when the
  documented precedence holds, and `ExampleMisattributed` shows that the example in
  `docs/reference/client-attribution.md:36-48` comes out otherwise.
- `internal/auth/membership.go:182-183` offers `Invalidate` for when the next request shall recheck.
  It does so if and only if no call for the user that began less than a TTL ago holds a yes it has not
  stored yet, be it decided or still on its way back from GitHub (`InvalidateRechecksIff`); a call
  that GitHub has not answered yet does no harm. `InvalidateOvertaken` is a run in which it fails.
  That reads the promise for yes answers. For yes and no alike, later requests are answered from
  rounds that began after `Invalidate` if and only if no call for the user that began less than a TTL
  ago is under way at all (`InvalidateAsksAnewIff`).
- `docs/reference/corrections.md` describes `/correct` as replacing the latest entry. Two corrections
  at the same time can both stay active (`CorrectionsDoubleUp`, `HourBecomesSeventyFiveMinutes`), and
  so do both rows when the last statement fails, which is only logged (`FailedSupersedeAddsRow`,
  `SupersedeFails`). `CorrectKeepsCountIff` gives the exact condition over the whole command.
- A duration whose minutes overflow the machine integer is accepted with another number
  (`OverflowAccepted`), and can even be one that is stored (`OverflowStored`); `AcceptedMinutes` gives
  the exact condition.
- A second `.env` merge reproduces the file if and only if the file holds no carriage return before a
  line feed (`SecondRunReproduces`, `CarriageReturnLost`).

## Model

| member | source | states |
|---|---|---|
| Commands.Wrap | internal/commands/parser.go:87 | The result of 64-bit arithmetic is in range, differs from the exact value by a multiple of 2^64, and is exact whenever that is in range |
| Commands.Decimal | internal/commands/parser.go:101-106 | `%d` prints a non-empty string of digits that denotes the number, without leading zeros |
| Commands.LeadingDigits | internal/commands/parser.go:27 | A greedy `\d+` takes a prefix of digits that no further digit follows |
| CommandLaws.DurationMatchIsPreferred | internal/commands/parser.go:27 | If the duration pattern can match at all, the scanner matches, and its match is the one leftmost-first greedy matching prefers to any other |
| CommandLaws.VerbAtUnique | internal/commands/parser.go:26 | The alternation finds a verb exactly when the text starts with it: no verb is the beginning of another |
| CommandLaws.CommandMatchIsLeftmost | internal/commands/parser.go:26-35 | Up to the verb: the scanner finds a command exactly when some line starts with a verb, and then the first such line, with all the text behind the verb |
| CommandLaws.CommandMatchIsPreferred | internal/commands/parser.go:26-38 | If the command pattern can match at all, the scanner matches, and its match is the preferred one: the first line, its verb, the most blanks, then all of the line |
| CommandLaws.ArgumentsPreferred | internal/commands/parser.go:26 | No way to match the argument group takes more blanks than the scanner, and one that takes as many captures the same text |
| CommandLaws.ParseIgnoresLinesBefore | internal/commands/parser.go:26-35 | Command-free lines in front of a comment do not change what it parses to |
| CommandLaws.ParseIgnoresLinesAfter | internal/commands/parser.go:26-60 | Lines behind the command change nothing for `/delete` and `/unplan`, or once a non-blank follows the verb |
| CommandLaws.BareVerbReadsOn | internal/commands/parser.go:26-60 | A verb with only blanks behind it takes its arguments from the next non-blank line, because `\s*` runs across line feeds |
| CommandLaws.LinesAfterIgnoredIff | docs/reference/commands.md:160 | For a comment with a command, whatever comes behind it is ignored if and only if the verb takes no argument or some non-blank follows it |
| CommandLaws.AcceptedMinutes | internal/commands/parser.go:69-93 | An accepted duration is a non-zero machine integer; it is the number written if and only if that number fits, and then at least 1 |
| CommandLaws.OverflowAccepted | internal/commands/parser.go:87-93 | 153722867280912931h is accepted as a negative number of minutes |
| CommandLaws.OverflowStored | internal/commands/parser.go:87-93 | The text `/log 3381903080180084463h` parses to 4 minutes, which fit the column |
| CommandLaws.ParsedMinutes | internal/commands/parser.go:51-60 | No parsed `/log`, `/correct` or `/plan` carries zero minutes |
| CommandLaws.PrintedDurationParses | internal/commands/parser.go:63-107 | A printed duration followed by any trimmed one-line description parses back to both, even if the description looks like a duration |
| CommandLaws.PrintParseRoundTrip | internal/commands/parser.go:31-107 | The texts `/log `, `/correct ` and `/plan ` with a printed duration and a description behind them parse to exactly that command |
| CommandLaws.PrintedText | internal/commands/parser.go:96-107 | What FormatDuration prints in every case, negative numbers included |
| CommandLaws.FormatDurationInjective | internal/commands/parser.go:97-107 | Different non-negative numbers of minutes print differently |
| CommandTexts.WithdrawalsIgnoreArguments | internal/commands/parser.go:40-45 | Whatever follows them, `/delete` and `/unplan` at the start of a comment parse to those commands |
| CommandTexts.ReadDigits | internal/commands/parser.go:73-85 | The digits are the code points 48 to 57, and numbers are read in base ten |
| CommandTexts.WrittenDuration | internal/commands/parser.go:31-93 | Every duration written as digits with `h` and `m`, with or without a description: invalid hours, invalid minutes, zero, or the command with the sum as the machine computes it |
| CommandTexts.BareVerbRefused | internal/commands/parser.go:47-49 | A verb that takes a duration, with nothing but blanks behind it, is refused for its missing duration |
| CommandTexts.NoDurationRefused | internal/commands/parser.go:87-90 | Text that does not begin with a digit counts as a duration of zero and is refused |
| CommandTexts.FormatNeverInvalid | internal/commands/parser.go:64-67 | No comment is ever refused for an invalid duration format: the pattern matches every line |
| CommandTexts.ExampleComments | internal/commands/parser_test.go:14-108 | `/log 2h Fixed bug`, `/plan 1h30m` and others parse to the commands the tests expect of such texts |
| Chains.ChainIsChain | internal/planentry/store.go:204-237 | The two walks from any row give a maximal run of pointers that contains the row, in increasing id order |
| Chains.ChainsPartition | internal/planentry/store.go:204-237 | Two maximal runs of pointers that share a row are the same sequence |
| Chains.ChainCharacterised | internal/timeentry/store.go:234-268 | The walks return the one maximal run through the id, the same from each of its rows, and nothing for an absent id |
| Chains.ChainsEqualOrDisjoint | internal/timeentry/store.go:234-268 | The chains of two ids are equal or have no row in common |
| ChainTotals.ChainsCarryAll | internal/planentry/store.go:351-354 | Where only rows without a pointer carry a value, the values of the chains' last rows sum to the whole |
| TimeEntries.TimeStore.constructor | migrations/000003_create_time_entries.up.sql:4-19 | The empty table satisfies the ledger; ids start at 1 |
| TimeEntries.TimeStore.Create | internal/timeentry/store.go:52-70 | The row is appended active under the next id, or nothing changes when its minutes do not fit the column; the ledger is kept |
| TimeEntries.TimeStore.FindLatestActive | internal/timeentry/store.go:113-123 | Returns some active row of the key with the largest created_at, and none exactly when there is none |
| TimeEntries.TimeStore.Supersede | internal/timeentry/store.go:126-135 | Marks and links the old row, whatever its status; refused exactly when the old row exists and the new one does not; an absent old id changes nothing |
| TimeEntries.TimeStore.SoftDelete | internal/timeentry/store.go:138-147 | Changes the status of that row only, and keeps the ledger |
| TimeEntries.TimeStore.Predecessor | internal/timeentry/store.go:237-247 | A row that points at the id, and none exactly when nothing does |
| TimeEntries.TimeStore.FindRoot | internal/timeentry/store.go:235-249 | The walk back ends, at the head of the chain |
| TimeEntries.TimeStore.GetCorrectionChain | internal/timeentry/store.go:234-268 | On every ledger both loops end and return the rows as the table holds them: the id's own among them, nobody points at the first, each points at the next, the last nowhere; nothing for an absent id |
| TimeEntries.LedgerLinks | internal/timeentry/store.go:234-268 | A ledger's pointers form chains: always to later rows, never two at one row |
| TimeEntries.InsertedKeeps | internal/timeentry/store.go:52-70 | An insert keeps the ledger and all history, and nothing points at the new row |
| TimeEntries.LinkedKeeps | internal/timeentry/store.go:126-135 | Supersede keeps the ledger and all history, even if the old row has changed since it was looked up |
| TimeEntries.SoftDeletedKeeps | internal/timeentry/store.go:138-147 | Deleting keeps the ledger and all history |
| TimeEntries.Latest | internal/timeentry/store.go:113-123 | The latest active row of a key, and none only when no row of the key is active |
| PlanEntries.PlanStore.constructor | migrations/000007_create_plan_entries.up.sql:3-19 | The empty table satisfies the ledger |
| PlanEntries.PlanStore.FindActive | internal/planentry/store.go:81-90 | Returns an active plan of the issue, and none exactly when there is none |
| PlanEntries.PlanStore.ReplacePlan | internal/planentry/store.go:101-146 | Commits exactly when no statement fails, the minutes fit and no other plan is active on the issue: the new row is active with the entry and the clock of the call, the old one superseded by it; otherwise every row is as before and at most an id is lost |
| PlanEntries.PlanStore.SoftDelete | internal/planentry/store.go:181-194 | Deletes that row with its closing comment, and keeps the ledger |
| PlanEntries.PlanStore.Predecessor | internal/planentry/store.go:207-216 | A row that points at the id, and none exactly when nothing does |
| PlanEntries.PlanStore.FindRoot | internal/planentry/store.go:205-218 | The walk back ends, at the head of the chain |
| PlanEntries.PlanStore.GetChain | internal/planentry/store.go:204-237 | On every ledger both loops end and return the rows as the table holds them: the id's own among them, nobody points at the first, each points at the next, the last nowhere; nothing for an absent id |
| PlanEntries.LedgerLinks | internal/planentry/store.go:204-237 | A ledger's pointers form chains |
| PlanEntries.ReplacedKeeps | internal/planentry/store.go:101-146 | A committed ReplacePlan keeps the ledger, with one active plan per issue, even if the plan to replace was superseded or deleted meanwhile |
| PlanEntries.SoftDeletedKeeps | internal/planentry/store.go:181-194 | Deleting a plan keeps the ledger and all history |
| PlanEntries.BurnedKeeps | internal/planentry/store.go:106 | A rolled-back insert keeps the ledger and all history |
| Deliveries.DeliveryStore.Claim | internal/webhook/delivery.go:24-33 | Won exactly by the first claim of an id, which is then claimed |
| Webhook.LatestUnique | internal/timeentry/store.go:113-123 | With strictly increasing created_at only one row can be the latest active one |
| Webhook.ClockDecides | internal/webhook/handler.go:389-469 | When created_at strictly increases up to the clock, all outcomes the database may choose between are the one of the serial specification |
| Webhook.FoundPlanReplaceable | internal/webhook/handler.go:239-270 | FindActive followed directly by ReplacePlan never trips the unique index: it is refused only when the minutes do not fit |
| Webhook.Handler.Handle | internal/webhook/handler.go:55-103 | Whatever the clock says, an undisturbed call changes nothing without signature or on a repeated id, and otherwise claims and runs the command on a row its lookup may return; both tables stay as they are unless the policy said yes; exactly the serial specification when the clock has advanced |
| Webhook.Handler.DispatchCommentCommand | internal/webhook/handler.go:194-228 | Acts only on a created comment that parses, and changes neither table unless the policy said yes |
| Webhook.Handler.HandleLog | internal/webhook/handler.go:342-387 | One active row, column by column from the comment, with the resolved client, the label snapshot (empty on an error) and the clock; none when the minutes do not fit |
| Webhook.Handler.HandleCorrect | internal/webhook/handler.go:389-440 | A latest active row of the author is superseded by a new one that inherits its client; nothing happens without one, or if the insert fails |
| Webhook.Handler.HandleDelete | internal/webhook/handler.go:442-469 | A latest active row of the author is deleted |
| Webhook.Handler.HandlePlan | internal/webhook/handler.go:230-292 | The issue's active plan is replaced, whoever made it |
| Webhook.Handler.HandleUnplan | internal/webhook/handler.go:294-328 | The issue's active plan is deleted with the closing comment |
| HandlerEffects.RefusedChangesNothing | internal/webhook/handler.go:61-87 | Without a valid signature, and on an id claimed before, Handle changes nothing |
| HandlerEffects.SignedIsClaimed | internal/webhook/handler.go:76-87 | A signed delivery claims its non-empty id, whatever else becomes of it |
| HandlerEffects.OthersLeaveTables | internal/webhook/handler.go:92-214 | Neither table changes unless the event is a comment, just created, that parses, and the policy said yes |
| HandlerEffects.LogEffect | internal/webhook/handler.go:342-387 | An admitted `/log`, on an issue or in a review, adds exactly its row, every column named; no row when the minutes do not fit |
| HandlerEffects.CorrectEffect | internal/webhook/handler.go:389-440 | An admitted `/correct` supersedes a latest active row of its author on its issue by its own row, which inherits the client; nothing else changes |
| HandlerEffects.DeleteEffect | internal/webhook/handler.go:442-469 | An admitted `/delete` marks a latest active row of its author on its issue; nothing else changes |
| HandlerEffects.PlanEffect | internal/webhook/handler.go:230-292 | An admitted `/plan` adds its row, and the plan that was active on its issue points at it; nothing else changes |
| HandlerEffects.UnplanEffect | internal/webhook/handler.go:294-328 | An admitted `/unplan` withdraws the plan of its issue with the id and URL of the comment; nothing else changes |
| SerialRuns.RunKeeps | internal/webhook/handler.go:55-103 | Every serial run keeps both ledgers, and increasing created_at as long as the clock advances |
| SerialRuns.RedeliveryHarmless | internal/webhook/handler.go:71-87 | A run with every repetition of a claimed delivery removed ends in the same tables and claims |
| SerialRuns.WithoutRepeatsHasNone | internal/webhook/handler.go:71-87 | What is left holds no signed non-empty delivery id twice |
| SerialRuns.ClaimedIds | internal/webhook/handler.go:76-87 | After a run an id is claimed exactly when a signed delivery with that non-empty id came |
| SerialRuns.CommandActsOnStack | internal/webhook/handler.go:342-469 | `/log` pushes, `/correct` replaces the top, `/delete` pops, on an empty stack the last two do nothing, and every other key's stack is untouched |
| SerialRuns.TimeTableRefinesStacks | internal/webhook/handler.go:342-469 | After any serial run the active rows of every key, in id order, are what replaying the accepted commands on a bare stack gives |
| SerialPlans.RunShaped | internal/webhook/handler.go:230-328 | After any serial run each plan of an issue is superseded by the issue's very next one or withdrawn, and the last is active or withdrawn |
| SerialPlans.ChainIsSegment | internal/planentry/store.go:204-237 | A segment of an issue's plans between two withdrawals is exactly one chain |
| SerialPlans.IssueSegments | internal/planentry/store.go:204-237 | After any serial run an issue's plans split into contiguous segments, and the chain of a row is its segment |
| SerialPlans.CommandActsOnPlan | internal/webhook/handler.go:230-328 | `/plan` sets the issue's current plan, `/unplan` clears it, all else and all other issues are untouched |
| SerialPlans.PlanTableRefinesPlan | internal/webhook/handler.go:230-328 | After any serial run the active plan of every issue is the last accepted `/plan` not followed by an `/unplan` |
| SerialHistory.ClosedRowsFrozen | internal/timeentry/store.go:126-147 | In a serial run a superseded or deleted row never changes again, its pointer included |
| SerialHistory.DeletedHasNoPointer | internal/timeentry/store.go:138-147 | After a serial run no deleted row points anywhere |
| PlanVsActual.VerdictExactly | internal/planentry/store.go:368-385 | The verdict in every case: from 20 planned minutes on it changes at five percent either way, below at one minute, and without planned minutes there is no plan |
| PlanVsActual.VerdictMonotone | internal/planentry/store.go:368-385 | For a fixed plan more logged time only moves the verdict from under over on_target to over |
| PlanVsActual.ComputePlanVsActual | internal/planentry/store.go:327-366 | Planned is the minutes of an active plan of the issue, or 0 when there is none; logged is the sum over the active rows, and variance and verdict follow from both |
| PlanVsActual.LoggedRowByRow | internal/planentry/store.go:350-363 | Each row adds its minutes to the logged sum of an issue if it is an active row of that repository and number, and nothing otherwise |
| PlanVsActual.LoggedIsChainTotal | internal/planentry/store.go:350-363 | On every ledger the logged minutes are the sum over the issue's chains of the last row's minutes where that row is active |
| PlanVsActual.LoggedIsStackTotal | internal/planentry/store.go:350-363 | On every table the logged minutes are what the users' stacks hold together |
| PlanVsActual.SerialAccounting | internal/planentry/store.go:350-363 | After a serial run the logged minutes are the total of the replayed stacks of all users |
| InterleavedRuns.StepKeeps | internal/webhook/handler.go:230-469 | Every step of every process keeps both ledgers, the provenance of all rows, the claims and what each waiting process relies on |
| InterleavedRuns.RunInvariant | internal/webhook/handler.go:55-469 | Every state of every interleaved, faulty run satisfies that invariant |
| InterleavedRuns.ReachableLedgers | internal/webhook/handler.go:406-429 | On every reachable table pointers go to later rows of the same key and client, at most one per row; active rows have none and superseded rows have one |
| InterleavedRuns.HistoryMonotone | internal/timeentry/store.go:52-147 | Between any two moments of a run no row is lost, no supplied column changes, and no row becomes active again, in either table |
| InterleavedRuns.ReachableChains | internal/planentry/store.go:204-237 | On every reachable table, for every id, both chain walks give a maximal increasing chain with the id in it, the same for all members and disjoint from all others; nothing for an absent id |
| InterleavedRuns.ChainSharesKeyAndClient | internal/webhook/handler.go:406-418 | Author, repository, issue and client are constant along every chain of every reachable time table |
| InterleavedRuns.DispatchedAtMostOnce | internal/webhook/handler.go:76-87 | In every interleaving no non-empty delivery id is dispatched twice |
| InterleavedRuns.TimeRowProvenance | internal/webhook/handler.go:342-425 | Every time row stems from a signed, claimed, allowed and created comment that parses to `/log` or `/correct`; author, name, repository, issue, minutes, description, comment id, URL and creator are that comment's, column by column, and its minutes are not zero |
| InterleavedRuns.PlanRowProvenance | internal/webhook/handler.go:230-270 | Likewise every plan row, from a comment that parses to `/plan` |
| InterleavedRuns.OneRowPerDelivery | internal/webhook/handler.go:216-227 | No delivery writes two rows, in one table or in both |
| InterleavedRuns.OneActivePlan | migrations/000007_create_plan_entries.up.sql:26-27 | No reachable state has two active plans on one issue |
| InterleavedRuns.ConflictKeepsWinner | internal/planentry/store.go:101-146 | A `/plan` that finds another plan active when it commits changes no row, and uses up an id unless its minutes do not fit; the winner stays active |
| InterleavedRuns.NoPlanExactly | internal/planentry/store.go:338-371 | On reachable tables the verdict is no_plan exactly when no plan is active |
| InterleavedRuns.ReachableAccounting | internal/planentry/store.go:350-363 | On every reachable table the logged minutes are the sum of the active chain ends of the issue |
| InterleavedRuns.AggregateAmongWriters | internal/planentry/store.go:333-364 | With the plan read at one moment and the sum at a later one, the verdict is no_plan exactly when no plan was active at the first, and the sum is that of the active chain ends at the second |
| Authorship.DispatchDecides | internal/webhook/handler.go:194-228 | A dispatch goes on to the statements of the comment's verb exactly when the policy says yes to a created comment that parses; otherwise the process ends and changes no table |
| Authorship.AllowedByPolicy | internal/webhook/handler.go:205-214 | In every run a process is allowed only if the policy said yes for it before |
| Authorship.RowsNeedPolicy | internal/webhook/handler.go:205-227 | Every row of both tables was written by a process for which the policy had said yes before |
| Authorship.OnlyOwnRowsChange | internal/webhook/handler.go:389-469 | In every run a time row changes only for an allowed, signed comment of its own author on its own issue: a `/delete` marks it, a `/correct` points it at a row it wrote itself |
| Authorship.OnlyIssuesPlansChange | internal/webhook/handler.go:230-328 | In every run a plan changes only for an allowed, signed comment on its own issue: a `/plan` supersedes it, an `/unplan` withdraws it with the comment's id and URL |
| InterleavedRuns.StaleCorrections | internal/webhook/handler.go:420-429 | Of two corrections of one row both new rows stay active, and the first is pointed at no more |
| CorrectionBalance.CorrectKeepsCountIff | internal/webhook/handler.go:389-440 | At every moment of every run a `/correct` has changed the number of active rows of its key by 0 or 1 and of other keys by 0; by 0 if and only if it inserted no row or its Supersede ran on a row still active |
| CorrectionBalance.FailedSupersedeAddsRow | internal/webhook/handler.go:425-429 | A `/correct` whose Supersede fails leaves one active row more for good |
| Service.ServedUnlessInterrupted | internal/webhook/handler.go:194-469 | In every run a finished process whose command was allowed ran its last statement, or was stopped before, and never both |
| Service.ServedAtMostOnce | internal/webhook/handler.go:76-87 | No non-empty delivery id is served at two moments of a run |
| Service.ExactlyOnceIff | internal/webhook/handler.go:71-103 | Once all deliveries with an id have ended, the id was served exactly once if and only if the process that won its claim was allowed and not stopped before its last statement |
| ServiceEffects.CommandNotLost | internal/webhook/handler.go:230-469 | Unless it was stopped, every allowed command that has ended did its work at some moment: row written, link made, row deleted, or nothing to act on, minutes that do not fit, or an index conflict |
| ServiceEffects.LookedUpBefore | internal/webhook/handler.go:239-453 | The row a command acts on was, at an earlier moment of the run, a latest active row of the author or the active plan of the issue |
| ServiceEffects.LogNotLost | internal/webhook/handler.go:342-387 | A finished, allowed `/log` whose minutes fit and that nobody stopped has its row in the table |
| ServiceEffects.PlanNotLost | internal/webhook/handler.go:230-292 | A finished, allowed `/plan` whose minutes fit and that nobody stopped has its row, or found another plan active on the issue when it committed |
| ServiceEffects.LostForGood | internal/webhook/handler.go:76-103 | After a stop between claim and dispatch no delivery with that id is ever dispatched, served or has a row |
| ServiceEffects.CommandLost | internal/webhook/handler.go:76-103 | For every signed delivery with an id such a run exists, with both tables untouched |
| ChainWalks.TimeWalkAmongWriters | internal/timeentry/store.go:234-268 | A walk whose queries each read the table at a moment of their own goes through strictly increasing ids, and rows of one person, issue and client |
| ChainWalks.PlanWalkAmongWriters | internal/planentry/store.go:204-237 | Likewise for plans: strictly increasing ids on one issue |
| StaleReads.CorrectionsDoubleUp | internal/webhook/handler.go:389-440 | For every `/log` and two `/correct` by one person a fault-free run exists that leaves two active rows |
| StaleReads.HourBecomesSeventyFiveMinutes | internal/webhook/handler.go:389-440 | One hour corrected to 30 and to 45 minutes at once can end as 75 logged minutes |
| StaleReads.SupersedeFails | internal/webhook/handler.go:425-429 | A run from the start in which Supersede fails: the row found and the row inserted are both active |
| StaleReads.IdlessLoggedTwice | internal/webhook/handler.go:76-87 | For every `/log` without a delivery id a run exists in which it comes twice and has two rows |
| SerialIsInterleaved.DeliveryAlone | internal/webhook/handler.go:55-103 | A delivery run to its end alone is a sequence of interleaved steps with the serial result |
| SerialIsInterleaved.SerialReachable | internal/webhook/handler.go:55-103 | The tables of every serial run are reachable by interleaved steps |
| Membership.MembershipChecker.constructor | internal/auth/membership.go:71-82 | Starts empty; a TTL of zero or less becomes five minutes |
| Membership.MembershipChecker.RefreshInstallations | internal/auth/membership.go:91-110 | An unforced refresh within the hour changes nothing and an error keeps the old map; otherwise the map holds exactly the accounts of the listing, each with the installation of its last entry there |
| Membership.MembershipChecker.CheckOrgs | internal/auth/membership.go:134-180 | True exactly when some allowed account grants: its own owner, or an organisation with an upstream yes; errors, unknown accounts and unknown types never grant |
| Membership.MembershipChecker.IsAllowed | internal/auth/membership.go:115-132 | A fresh decision is returned unasked; otherwise the new one is yes exactly when an allowed account vouches for the user, by the installation map or, when that was empty, by the last entry of the account in GitHub's listing; it is cached, and two rounds for a user are at least the TTL apart |
| Membership.MembershipChecker.Invalidate | internal/auth/membership.go:184-188 | Forgets the user's decision and no other |
| MembershipConcurrency.StepKeeps | internal/auth/membership.go:115-188 | Every step of every call, requests sent, answered and received at moments of their own, keeps cache and calls backed by evidence dated when GitHub gave it |
| MembershipConcurrency.BoundedStaleness | internal/auth/membership.go:115-180 | In every interleaving a true answer is backed by an owner match or by a yes GitHub gave later than the call's clock reading less the TTL |
| MembershipConcurrency.RevocationTakesEffect | internal/auth/membership.go:115-180 | Once nothing new speaks for a user, no call that begins a TTL later says yes |
| MembershipInvalidation.InvalidateRechecksIff | internal/auth/membership.go:182-188 | In any state, every later request is answered yes only on evidence from after Invalidate if and only if no call for the user that began less than a TTL ago holds an unstored yes |
| MembershipInvalidation.QuietInvalidateRechecks | internal/auth/membership.go:182-188 | So it does when no call for the user is under way |
| MembershipInvalidation.InvalidateOvertaken | internal/auth/membership.go:126-131 | A run from the start in which GitHub's yes is on its way when Invalidate comes, and a later request is let in without new evidence |
| MembershipRounds.InvalidateAsksAnewIff | internal/auth/membership.go:115-188 | In every state of every run, later requests are answered, yes or no, from rounds of calls that came after Invalidate if and only if no call for the user that began less than a TTL ago is under way |
| MembershipAnswers.LookupAnswers | internal/auth/membership.go:115-124 | A cached decision, yes or no, is the answer exactly when it is younger than the TTL |
| MembershipAnswers.RefusalsJustified | internal/auth/membership.go:115-180 | In every run a no comes from a cached no younger than the TTL, from a failed refresh, or after every allowed account has declined: not installed, of an unknown type, another person's, or no yes from GitHub |
| MembershipAnswers.GrantsJustified | internal/auth/membership.go:115-180 | In every run a yes comes from a cached yes younger than the TTL, or from an allowed account installed at the call's snapshot: the user's own, or an organisation for which GitHub's yes reached the call |
| TokenCache.StepKeeps | internal/github/client.go:70-144 | Every step keeps one runner per slot, pending requests with their runner, and fetched tokens cached or at their margin |
| TokenCache.OneFetchInFlight | internal/github/client.go:82-101 | In every interleaving at most one request per installation is pending |
| TokenCache.FetchOnlyWhenNeeded | internal/github/client.go:70-99 | A request starts only when no cached token is valid beyond the margin |
| TokenCache.FetchesApart | internal/github/client.go:70-144 | A request after a successful one starts no earlier than 60 s before that token expires |
| TokenOrigins.TokensAreGiven | internal/github/client.go:70-144 | In every run a token a call returns is one that GitHub gave for that call's own installation, and a call that returns none follows a failed request for it |
| TokenOrigins.CachedTokensAreFresh | internal/github/client.go:70-94 | On the fast path and at the second look the cached token is handed out exactly when it is valid for more than 60 s, and otherwise the call goes on to the next stage |
| TokenOrigins.WaiterGetsExpiredToken | internal/github/client.go:84-103 | A run in which a caller that waited on the slot is handed a token that has expired meanwhile |
| TokenResults.ResultStays | internal/github/client.go:82-103 | Once a call holds a result, that is what it ends with |
| TokenResults.WaiterTakesOver | internal/github/client.go:82-103 | A call that has waited for another ends with what the other ends with |
| TokenResults.AnswerReachesCalls | internal/github/client.go:82-144 | The call whose request was answered, and every call that waited for it, end with the token GitHub gave, or with none if the request failed |
| EnvFile.MergeEnvFile | cmd/billbird/init.go:362-419 | The file is the old lines, each kept or replaced in place, then one line per unassigned key; written and skipped are exactly described and cover exactly the update keys |
| EnvFile.MergeLines | cmd/billbird/init.go:370-397 | Comments, unparsed lines, foreign keys and, without force, non-blank values stay as they are, where they are |
| EnvFile.AppendMissing | cmd/billbird/init.go:406-412 | Exactly the keys no line assigns are appended, once each, in some order |
| EnvFileLaws.ScanRendered | cmd/billbird/init.go:368-371 | Reading a written file gives its lines back, less one carriage return at the end of each |
| EnvFileLaws.ForceSetsValues | cmd/billbird/init.go:390-396 | After a forced merge every line that assigns an update key assigns the new value |
| EnvFileLaws.MergeAssignsAll | cmd/billbird/init.go:405-412 | After any merge every update key is assigned by some line |
| EnvFileLaws.SecondMergeKeepsLines | cmd/billbird/init.go:362-419 | For non-blank one-line values a second merge without force keeps all lines, less the carriage returns |
| EnvFileLaws.SecondMergeReproduces | cmd/billbird/init.go:362-419 | So it reproduces the file if and only if no line ends in a carriage return |
| EnvFileLaws.SecondRunReproduces | cmd/billbird/init.go:362-419 | From file to file: whatever was there, a second merge without force leaves the merged file as it is if and only if it holds no carriage return before a line feed |
| EnvFileLaws.CarriageReturnLost | cmd/billbird/init.go:368-371 | A value written with a carriage return at its end loses it |
| EnvFileLines.ParsedExactly | cmd/billbird/init.go:373-391 | An assignment is read off a line exactly when it is spaces and tabs, a text that begins with neither blank nor `#`, the first `=`, and the rest; key and value are trimmed |
| EnvFileLines.CommentAssignsNothing | cmd/billbird/init.go:373-376 | A line whose first non-blank is `#` assigns nothing, whatever it says |
| EnvFileLines.LineMerged | cmd/billbird/init.go:373-397 | A line that assigns none of the updates stands; one that assigns an update key is kept if it has a value and the merge is not forced, and rewritten otherwise |
| EnvFileLines.MergeSpelled | cmd/billbird/init.go:362-412 | The whole merge in these terms: comments and foreign lines where they were, others kept or rewritten in place, then one line for each key no line assigns, be it only commented out |
| EnvFileLines.ScanUnended | cmd/billbird/init.go:368-371 | The last line of a file counts whether or not a line feed ends it |
| Listing.PrefixClauseExactly | internal/timeentry/store.go:202-206 | The LIKE clause means "starts with the prefix" if and only if the prefix holds none of %, _ and \ |
| Listing.BuildTimeQuery | internal/timeentry/store.go:162-206 | For every filter the clauses select exactly the rows with the status, repository, client, user and half-open date range of the set fields that hold all its labels and one like its trimmed prefix; placeholders 1..n are bound once each; any status but "" and "active" means all |
| Listing.BuildPlanQuery | internal/planentry/store.go:251-294 | Likewise for plans, where any status but "all" is taken literally; the database refuses the query exactly on a status that is none |
| Listing.TimeListing | internal/timeentry/store.go:208-224 | The list is at most 500 matching rows, newest first, none more often than the table holds it; a matching row is left out only for 500 that are no older |
| Listing.PlanListing | internal/planentry/store.go:296-312 | Likewise for plans, and it fails exactly on a status that is none |
| Listing.WhereCounts | internal/timeentry/store.go:208-214 | The WHERE clause keeps each matching row as often as the table holds it, and no other |
| Listing.ShortListingComplete | internal/timeentry/store.go:208 | Up to 500 matching rows are all listed |
| Listing.AddShared | internal/timeentry/store.go:187-206 | Half-open date range, all labels contained, some label like the trimmed prefix |
| Listing.AndMeans | internal/timeentry/store.go:168-170 | One more clause with its argument selects the rows that also pass it, and keeps the numbering |
| Resolver.ResolveClient | internal/client/resolver.go:27-75 | Among the mappings of active clients for the labels: the oldest of the repository, else the oldest scoped to another one, else the oldest global one; the documented precedence holds if and only if there is one of the repository or none of another |
| Resolver.FirstOwnIsOldest | internal/client/resolver.go:60-68 | The first row of the repository itself is its oldest mapping |
| Resolver.FirstWithoutOwn | internal/client/resolver.go:70-74 | Without one, the first row is the oldest of another repository if any is, and else the oldest global one; documented only in the second case |
| Resolver.ExampleMisattributed | docs/reference/client-attribution.md:36-48 | On the documentation's example the code picks the client of another repository |
| ApiTokens.TokenStore.Generate | internal/apitoken/store.go:72-104 | A token with a label is stored for the user under the prefix its text carries, so the prefix filter stays consistent; nothing is stored when hashing or the insert fails |
| ApiTokens.TokenStore.Verify | internal/apitoken/store.go:111-143 | Accepts exactly the texts "bb_" with eight more characters that are the prefix of an unrevoked row whose hash matches, which is what a scan of all rows would accept; records the use under that row's id, at most once a minute, and changes nothing else |
| ApiTokens.TokenStore.Revoke | internal/apitoken/store.go:196-207 | Marks that token and no other with time and name; a second revocation changes nothing |
| ApiTokens.TokenStore.RecordLastUsed | internal/apitoken/store.go:209-222 | Two writes for one token are at least 60 s apart, even if clock readings arrive out of order |

## Left out

- HTTP routing, JSON decoding, HMAC, admin pages, CSV export, OAuth, configuration, `doctor`: plumbing around the core; a delivery arrives decoded, with a flag for its signature.
- Posted GitHub comments: they change no table.
- A handler without a plan store or without a client resolver: the stores are always present; no resolver is the same as no matching label.
- `Store.Create` for plans, `MarkSuperseded` and `LinkSupersedeChain`: no handler calls them, and the last two can break the invariants.
- Failing queries inside `GetCorrectionChain` and `GetChain`: both then return an error.
- Webhook.Handler.Handle: the class takes no faults and one call at a time; faults and overlapping calls are in `Interleaving`, on values instead of objects.
- The transaction isolation of `ReplacePlan`: it is one atomic step, as its own comment and the unique index promise.
- The concurrent caches are state machines over values: the objects and their mutexes are not modelled, each locked region is one atomic step, and singleflight admits one runner per key.
- The hourly age check of the installation map under concurrency: there the map may change at any moment, which covers it.
- PlanVsActual.ComputePlanVsActual: its two SELECT statements read the tables at one moment; `AggregateAmongWriters` is the statement for two.
- EnvFile.MergeEnvFile: I/O errors, the scanner's limit of 1 MB per line, and multi-line values are not modelled.
- ApiTokens.TokenStore.Generate: randomness and bcrypt are not modelled; that a hash is matched only by texts that begin like the token is an assumption on its inputs.
- Cycle-time tracking and admin corrections: specified in the documentation, not implemented.
