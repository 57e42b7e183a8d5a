# Verification of the command, outbox, workbook, lock and approval logic

This project models the parts of the system whose correctness spans several functions, several
processes or whole runs, and proves what they promise.

- **Idempotent commands.** `CommandProtocol` is a state machine over any number of concurrent
  attempts: fence check under a share lock, `INSERT IGNORE`, `SELECT ... FOR UPDATE`, the effect, the
  update to `completed`, commit, rollback, lost acknowledgements and fence flips at any moment.
  `MutationClient` puts the browser's pending keys and a lossy network in front of it.
  `DatabaseTransaction` is the wrapper that decides between a definite error and "outcome unknown".
  `CanonicalJson` is the printer that decides whether two requests are the same, and `Composition`
  puts printer, wrapper and protocol together.
- **Outbox workers.** `Outbox` holds the row updates of claim, complete, pause, fail and dispatch;
  `OutboxProtocol` runs any number of workers over them, with crashes, expired leases, fence pauses
  and lost commit acknowledgements. `OutboxTransactions` splits their transactions into fence check,
  one step per row swept and per child looked up or inserted, and commit, under share, row, key and
  gap locks, and refines `OutboxProtocol`. `OutboxDeadlock` says when these transactions cannot block
  each other, and `OutboxContention` how they do otherwise.
- **The workbook writer.** `ShiftRegister` and `Crc32` prove the table-driven checksum against the
  bit-by-bit definition; `ZipFormat` and `StoredZip` prove that a reader recovers what was written;
  `ColumnReference`, `Worksheet` and `SafeXlsx` cover cell references, the bounded builder and the
  byte budget, and `WorksheetReader` reads the cells back from the markup of a worksheet.
- **Row locks and payments.** `RowLocks` and `LockProtocol` prove the lock order free of deadlock;
  `PaymentGuard` and `PaymentProtocol` prove that payments under those locks never exceed a total.
- **Approval effects.** `ApprovalEffects`, `FactoryWrites` and `ApprovalRuns` keep one active price
  and one committed effect per approval version over any run of effects, submissions and direct
  writes of factories, and one active primary supplier as long as no direct write disputes it.
  `PriceTransactions` and `RelationTransactions` show the same statement by statement, under row, gap
  and range locks.
- **Payment dates.** `PaymentDate` is the calendar computation, over JavaScript's dates.

Code that computes values is functions with lemmas about them. Code that changes things step by step
is a class or a loop, proved against such a function: `CommandDatabase`, `Browser`, `OutboxTable`,
`BoundedXmlBuilder`, `LockSession`, `Database`, `UtcDate`, `Connection` and the loops of the writer.
A thrown error is `None` or `Failure`. Interleavings are runs: sequences of states linked by enabled
steps, and the theorems about them hold for every run.

## Results worth knowing

Some promises hold only under a condition; the lemmas give the condition and an input that breaks it.

- A definite error shown by the browser does not exclude a committed effect. When the call was the
  only one that sent its key, and its command answers successes with a 2xx status, there is an effect
  exactly in two cases (`MutationClient.SoleDefiniteErrorExactly`). The code is `INVALID_RESPONSE`, the
  browser's own code for a success it cannot read (`MutationClient.UnreadableSuccess`); or the route
  refused a result that was already committed (`MutationClient.RefusalAfterCommit`). Three routes do
  so: auth.login, auth.verify and step-up.verify commit a wrong password or code as a failed attempt
  and then answer 401 or 429. Whether the code alone tells is `MutationClient.CodeDecides` and
  `MutationClient.CodeDecidesNothing`: for UNAUTHORIZED of auth.login and of step-up.verify, and for
  an unreadable refusal of the three, it does not.
- When the call was not the only one, even an error from before the command may follow a committed
  effect: a first call commits, its response is lost, and the fence then rejects the retry
  (`MutationClient.DefiniteErrorAfterCommit`); the browser sees the same where nothing is committed
  (`MutationClient.DefiniteErrorWithoutCommit`).
- A pending entry of the browser yields at most one effect only as long as one actor uses it. Its id
  hashes method, path and body, the server's key also has the user: a second user who repeats a
  pending request in the same browser sends the stored key and commits a second effect
  (`MutationClient.TwoActorsOneEntry`; the bound is `MutationClient.OneEffectPerEntry`).
- Whether a payment ledger is accepted depends on the order of its records, because running sums may
  leave the safe integers in one order only (`PaymentGuard.AcceptanceDependsOnOrder`). It is accepted
  in every order exactly when its positive and its negative amounts each add up to a safe integer, and
  in some order exactly when its net is safe (`PaymentGuard.AcceptedInEveryOrder`,
  `PaymentGuard.AcceptedInSomeOrder`); the net never depends on the order.
- A direct relation write of a factory demotes no other primary: it keeps one active primary exactly
  when no other relation of the factory and SKU is one (`FactoryWrites.OnePrimaryExactly`).
- What keeps active prices unique under concurrency is the isolation level. With gap locks, as MySQL's
  default has them, it is unconditional; without them it holds exactly as long as each writer that
  commits has read the price at the version that it expects (`PriceTransactions.OneActiveExactly`). A
  direct write that finds no price and sends any later version breaks it, once that many others have
  committed (`PriceTransactions.AheadOfTheVersion`). Primaries need range locks
  (`RelationTransactions.OnePrimaryAlways`, `RelationTransactions.RangesAreNeeded`): without them they
  stay unique exactly as long as direct writes are undisputed and no active primary enters a group
  between the demotion and the commit of an approval (`RelationTransactions.OnePrimaryThroughout`).
- An approved price change and a direct one lock version row and price in opposite orders, so they can
  deadlock (`PriceTransactions.OppositeOrders`); each kind alone does not, once there is a price to
  replace (`PriceTransactions.OneKindAdvances`).
- The dispatch of a notification locks its child keys one recipient at a time, in whatever order the
  query returns the recipients. Two workers that hold one message, because its lease expired in
  between, can therefore deadlock: without gap locks exactly if the first recipients that both lists
  share differ (`OutboxContention.BlockExactlyWhenCrossed`). Under gap locks, as MySQL's default has
  them, dispatches of different messages can, and those of one message in one order, too
  (`OutboxContention.GapsBlockTwoMessages`, `OutboxContention.GapsBlockOneOrder`); and a dispatch that
  finds the children of an earlier one can deadlock with a sweep
  (`OutboxContention.SweepMeetsLateDispatch`). Outside these cases there is no deadlock
  (`OutboxDeadlock.NoDeadlock`); ascending recipient ids without gap locks rule out the first two
  (`OutboxDeadlock.NoDeadlockById`).
- A worker's fence check on the pool does not protect the delivery that follows it
  (`OutboxTransactions.PoolCheckIsNotEnough`); a check inside a transaction does, until its commit.
- `Date.UTC` takes the years 0 to 99 for 1900 to 1999. The monthly payment date is at most 90 days
  after the shipment exactly outside those years (`PaymentDate.DueWithinNinetyDays`), and dates on
  both sides of the end of the year 99 come out in the wrong order (`PaymentDate.CenturyBreaksOrder`).

## Model

| member | source | states |
|---|---|---|
| CommandProtocol.StepKeepsInv | apps/api/src/platform/commands.ts:241-304 | every step of every attempt keeps the invariant; its core is that no committed row is pending and each completed row carries the one effect of its key |
| CommandProtocol.AtMostOneEffect | apps/api/src/platform/commands.ts:247-304 | in every run the effect is committed at most once per command, actor scope and idempotency key |
| CommandProtocol.SuccessReportsTheEffect | apps/api/src/platform/commands.ts:270-304 | a success, fresh or replayed, carries the result, status and digest of the one committed effect of its key |
| CommandProtocol.FreshSuccessIsOwn | apps/api/src/platform/commands.ts:207-222 | a success that is no replay carries the result that its own effect returned, with the status that the configuration of its command asks for: 200, the constant, or the computed one, within 200 to 299 where that is checked |
| CommandProtocol.StatusIsFit | apps/api/src/platform/commands.ts:207-222 | the status is the one asked for, and none only where a checked one is not from 200 to 299 |
| CommandProtocol.SuccessesAgree | apps/api/src/platform/commands.ts:266-276 | all callers told success under one key got the same result and status, for the same request digest |
| CommandProtocol.DefiniteErrorCommittedNothing | apps/api/src/platform/commands.ts:305-321 | an attempt answered with any error but the unknown outcome never has a committed effect |
| CommandProtocol.ReplyIsFinal | apps/api/src/platform/commands.ts:305-321 | a reply, once given, stays with its attempt for the rest of the run |
| CommandProtocol.EffectsCommitUnderTheFence | apps/api/src/platform/commands.ts:171-190 | whenever an effect commits, the fence row of its resource is there with owner fastify-v1, generation 2 and enabled, in every interleaving with fence flips |
| CommandProtocol.FenceDecides | apps/api/src/platform/commands.ts:171-190 | the check passes exactly on that row; on any other, or on none, the attempt is never answered anything but a rejected fence, or the unknown outcome of a lost contact, and commits nothing in the whole run |
| CommandProtocol.NeverInProgress | apps/api/src/platform/commands.ts:262-303 | the branches for a pending, a missing or an unmatched row are never taken |
| CommandProtocol.DuplicateDecision | apps/api/src/platform/commands.ts:262-287 | what an attempt decides from the inserted count and the locked row: run, replay that very row, or report a reused key |
| CommandProtocol.CommandDatabase.Claim | apps/api/src/platform/commands.ts:247-287 | with the key unlocked, insert and select lead to running exactly when no row exists, and otherwise to the replay or the key conflict |
| CommandProtocol.CommandDatabase.ExecuteIdempotentCommand | apps/api/src/platform/commands.ts:224-322 | the whole command on an idle database: its reply and the new row and effect, by cases of fence, row, digest, run and status |
| CommandProtocol.CommandDatabase.RetryReplays | apps/api/src/platform/commands.ts:270-277 | a retry after a success answers the first result, marked replayed, and adds no effect |
| MutationClient.UuidIsAccepted | apps/web/app/lib/mutation-client.ts:136-143 | every generated key has the shape a later call accepts, so it is reused |
| MutationClient.KeyPatternIs | apps/web/app/lib/mutation-client.ts:139 | accepted keys are 16 to 128 letters, digits and, but for the first, dots, underscores, colons and dashes |
| MutationClient.DecodeExactly | apps/web/app/lib/mutation-client.ts:199-225 | a response is a result exactly if it is a 2xx with both members, and leaves the outcome unknown exactly for gateway errors, server errors without a code of their own and the two codes that say so |
| MutationClient.FailureAsSeen | apps/api/src/platform/commands.ts:305-321 | the code that the browser shows for each way a command fails, and which failures of an effect it takes for an unknown outcome |
| MutationClient.SuccessAsSeen | apps/api/src/modules/auth/writes.ts:514-522 | a success is shown with its result, unless it is one of the three refusals after the commit: 429 for a locked account, 401 otherwise |
| MutationClient.Browser.PendingKey | apps/web/app/lib/mutation-client.ts:136-143 | a stored key of the right shape is kept, anything else is replaced, and no other entry changes |
| MutationClient.Browser.MutateJson | apps/web/app/lib/mutation-client.ts:227-262 | the key that is sent, the outcome, and that the entry stays exactly when the outcome is unknown or no request was sent |
| MutationClient.Browser.RetryReusesKey | apps/web/app/lib/mutation-client.ts:233-262 | after a lost or unknown response the retry sends the same key |
| MutationClient.RemovalNeedsAnAnswer | apps/web/app/lib/mutation-client.ts:249-256 | an entry is removed only on a response that is a success or a definite error |
| MutationClient.PendingKeyIsStable | apps/web/app/lib/mutation-client.ts:136-143 | while an entry is pending every call for it sends one and the same key |
| MutationClient.OneEffectPerEntry | apps/web/app/lib/mutation-client.ts:136-143 | end to end, with lost requests and responses: every effect under the key of a pending entry belongs to a call for that entry, and there is at most one as long as its calls are for one command and one actor |
| MutationClient.TwoActorsOneEntry | apps/web/app/lib/mutation-client.ts:136-143 | without that condition there are two: a second actor repeats the pending request in the same browser, sends the stored key, and both effects commit under it |
| MutationClient.SuccessMeansExactlyOne | apps/web/app/lib/mutation-client.ts:199-225 | a success in the browser means exactly one committed effect, with that result and digest |
| MutationClient.SoleDefiniteErrorExactly | apps/web/app/lib/mutation-client.ts:199-256 | for a definite error to the only call that sent its key, to a command configured with 2xx statuses: one effect is committed under the key, then and later, if the code is INVALID_RESPONSE or the route refused a committed result, and none otherwise |
| MutationClient.CodeDecides | apps/api/src/modules/auth/writes.ts:514-522 | by command and code alone, outside five undecided pairs: one effect for INVALID_RESPONSE, for TOO_MANY_REQUESTS of auth.login and for UNAUTHORIZED of auth.verify, and none for any other |
| MutationClient.CodeDecidesNothing | apps/api/src/modules/auth/writes.ts:843-846 | each undecided pair of command and code, such as UNAUTHORIZED of step-up.verify, comes with an effect in one reachable state and without one in another that looks the same to the browser |
| MutationClient.RefusalAfterCommit | apps/api/src/modules/auth/writes.ts:514-522 | a reachable state in which the only call of auth.login, auth.verify or step-up.verify has committed its failed attempt, the route answered with a definite error, and the entry is gone |
| MutationClient.FirstErrorIsSole | apps/web/app/lib/mutation-client.ts:252-256 | any definite error to the first call of an entry puts the system into that case |
| MutationClient.UnreadableSuccess | apps/web/app/lib/mutation-client.ts:204-223 | a reachable state in which the only call of an entry has committed, its success arrived with an unreadable body, and the entry is gone |
| MutationClient.DefiniteErrorAfterCommit | apps/web/app/lib/mutation-client.ts:249-262 | a reachable state in which a first call has committed and lost its response, the retry under the same key was told a definite error, and the entry is gone |
| MutationClient.DefiniteErrorWithoutCommit | apps/web/app/lib/mutation-client.ts:249-262 | a reachable state in which both calls ended for the browser in the same way, and nothing is committed: the code of a later error decides nothing |
| CanonicalJson.CanonicalIdentifies | apps/api/src/platform/commands.ts:111-124 | two JSON values print alike exactly when they are equal up to member order, at any depth |
| CanonicalJson.RefusedExactly | apps/api/src/platform/commands.ts:115-116 | the server refuses a value exactly if a number at some depth of it is not finite |
| CanonicalJson.RequestTextIdentifies | apps/api/src/platform/commands.ts:126-130 | two requests hash the same text exactly when command and payload agree |
| CanonicalJson.QuotedUnique | apps/api/src/platform/commands.ts:111-124 | a quoted string ends where it ends: no two strings share a prefix of output |
| CanonicalJson.QuotedReadsBack | apps/api/src/platform/commands.ts:111-124 | a JSON reader gives back exactly the quoted string, and what follows it, for every string of code units |
| CanonicalJson.EscapedIsWellFormed | apps/api/src/platform/commands.ts:111-124 | what is written has surrogates in pairs only, even for a string with lone ones |
| CanonicalJson.PlainIsKept | apps/api/src/platform/commands.ts:111-124 | a string without quotes, backslashes, control characters and surrogates is written as it is |
| CanonicalJson.ClientMatchesServer | apps/web/app/lib/mutation-client.ts:99-105 | the browser's text of a value that may hold undefined equals the server's text of what JSON transport delivers |
| Composition.SuccessesAskedTheSame | apps/api/src/platform/commands.ts:126-130 | with an injective hash, two successes under one key were for the same command and for payloads equal up to member order |
| Composition.CourseIsAPath | apps/api/src/platform/commands.ts:305-321 | every course of a transaction is a commit, a rollback, or a lost contact that the server settles: the attempt is committed exactly when the transaction is applied, and its reply is what the transaction answers |
| DatabaseTransaction.AnswersAreTrue | apps/api/src/infrastructure/database.ts:759-857 | over every outcome of connect, begin, callback, commit and rollback: a result means an acknowledged commit, and an error other than the unknown outcome means none |
| DatabaseTransaction.UnknownTellsNothing | apps/api/src/infrastructure/database.ts:820-829 | an unacknowledged commit is answered with the unknown outcome whether or not it was applied |
| DatabaseTransaction.Transaction | apps/api/src/infrastructure/database.ts:759-857 | the answer and the truth on the server for every course of events; each obtained connection is released or destroyed once, and released only with no transaction open |
| DatabaseTransaction.RunSqlOperation | apps/api/src/infrastructure/database.ts:496-587 | a connection is destroyed, and the error marked uncertain, exactly when its statement was sent and cut off; otherwise it is released once; and the code of each error |
| Outbox.PickIsFirst | apps/worker/src/server.ts:308-319 | the claimed row is the first eligible unlocked one by time and id |
| Outbox.QueueAddsAll | apps/worker/src/server.ts:367-407 | when no child key is taken, one new row is queued per recipient |
| Outbox.DispatchedEffect | apps/worker/src/server.ts:356-409 | a dispatch completes its own row, queues children only for its recipients, and changes no other row |
| Outbox.OutboxTable.Enqueue | apps/api/src/platform/outbox.ts:22-44 | a new pending row, unless its deduplication key is taken |
| Outbox.OutboxTable.Claim | apps/worker/src/server.ts:293-334 | exhausted leases are buried, the first eligible row is leased with one more attempt, a row whose lease is at most 300 seconds old stays as it is, and nothing happens while the fence is down |
| Outbox.OutboxTable.Pause | apps/worker/src/server.ts:476-486 | the holder gives one attempt back, nobody owns the row any more, and it is eligible exactly from a second later; a lost lease changes nothing |
| Outbox.PauseUndoesClaim | apps/worker/src/server.ts:476-486 | a claim that is paused leaves the row as it was, but pending and eligible exactly from a second later |
| Outbox.OutboxTable.Fail | apps/worker/src/server.ts:520-536 | the row is dead exactly when the error is permanent or no attempt is left, and otherwise eligible exactly from its delay on; a lost lease changes nothing |
| Outbox.FailDelays | apps/worker/src/server.ts:520-536 | a buried row is never claimed or swept again; another one keeps its attempts and waits between five seconds and an hour |
| Outbox.DelayDoubles | apps/worker/src/server.ts:524 | the delay starts at five seconds and doubles with each attempt up to an hour |
| Outbox.OutboxTable.DispatchNotification | apps/worker/src/server.ts:343-416 | all children and the completion together, or nothing |
| OutboxProtocol.StepKeepsInv | apps/worker/src/server.ts:293-536 | every step of every worker keeps the invariant on rows, leases, holders and the ledger of dispatches |
| OutboxProtocol.ExactlyOnceDispatch | apps/worker/src/server.ts:61-73 | a domain event, notification or scan has exactly one committed dispatch if it is completed and none otherwise, in every reachable state |
| OutboxProtocol.OneChildPerRecipient | apps/worker/src/server.ts:367-409 | the committed dispatch of a notification has exactly one email row per recipient and none for anyone else |
| OutboxProtocol.DispatchQueuesEveryone | apps/worker/src/server.ts:371-376 | the check for an existing child never skips a recipient |
| OutboxProtocol.ReachableRow | apps/worker/src/server.ts:299-334 | attempts stay within the limit, pending rows have one left, processing rows have a lease, attempts equal claims minus pauses, and the holder's copy agrees with the row |
| OutboxProtocol.TerminalIsFinal | apps/worker/src/server.ts:476-536 | completed and dead rows never change again |
| OutboxProtocol.MoveDecreases | apps/worker/src/server.ts:299-334 | every move of a message but a pause lowers a measure of attempts left and status |
| OutboxProtocol.MovesAreBounded | apps/worker/src/server.ts:299-334 | without pauses a message moves at most twice per remaining attempt |
| OutboxProtocol.NoMessageIsStuck | apps/worker/src/server.ts:308-319 | an unfinished message can be taken or swept exactly from a moment that its row tells: a pending one from its time on, a leased one once the lease is more than 300 seconds old |
| OutboxProtocol.LiveLeaseIsKept | apps/worker/src/server.ts:299-319 | no claim, whatever it sweeps and takes, changes a row whose lease is at most 300 seconds old |
| OutboxProtocol.ClaimMakesProgress | apps/worker/src/server.ts:293-334 | with the fence up, the claim of all exhausted rows and the first eligible one is possible, buries what is exhausted and takes a row whenever one is eligible |
| OutboxTransactions.StepKeepsInv | apps/worker/src/server.ts:293-510 | with fence checks under share locks, one step per row that a sweep buries and per child that a dispatch looks up or inserts, completions, commits and rollbacks of any number of workers: every step keeps rows, ledger, locks and fences consistent |
| OutboxTransactions.CommitIsAtomic | apps/worker/src/server.ts:293-510 | what a claim, dispatch or completion wrote statement by statement is, at its commit, one atomic step of OutboxProtocol, whatever other workers did in between |
| OutboxTransactions.QueueIsAppended | apps/worker/src/server.ts:367-407 | the loop that looks up and inserts one child at a time inserts exactly the children whose key was free before it |
| OutboxTransactions.RunRefines | apps/worker/src/server.ts:293-510 | every run of statements is a run of the atomic machine, so all its theorems hold in every interleaving |
| OutboxTransactions.ExactlyOnceDispatch | apps/worker/src/server.ts:61-73 | a transactional message has exactly one committed dispatch if it is completed and none otherwise, in every interleaving of statements |
| OutboxTransactions.CommitsUnderTheFence | apps/worker/src/server.ts:92-105 | each commit of a claim, dispatch or completion finds the fence up that it checked at its beginning |
| OutboxTransactions.EffectsUnderTheFence | apps/worker/src/server.ts:92-105 | whenever a row becomes completed or leased, the fence for it is up at that moment, in every interleaving with fence switches |
| OutboxTransactions.LiveLeaseIsKept | apps/worker/src/server.ts:299-319 | the same for the commit of a claim in every interleaving of statements |
| OutboxDeadlock.NoDeadlock | apps/worker/src/server.ts:293-510 | in no reachable state do all open transactions wait for a row, key or gap lock, if the recipients of the open dispatches follow one ranking of the child keys, no lookup of one locks a gap in which another inserts, and no row that a claim may bury is a child of an open dispatch |
| OutboxDeadlock.NoDeadlockById | apps/worker/src/server.ts:358-407 | without gap locks, recipients in ascending order of their ids are such a ranking |
| OutboxDeadlock.AllCanEnd | apps/worker/src/server.ts:293-510 | from such a state, with the open claims within a lease time of each other, all open transactions can end with the recipients they have read, in at most two of their own steps per recipient, one per exhausted row and three more each |
| OutboxContention.BlockExactlyWhenCrossed | apps/worker/src/server.ts:367-406 | without gap locks, two dispatches of one message wait for each other in some reachable state exactly if the first recipients that their lists share differ |
| OutboxContention.CrossedLists | apps/worker/src/server.ts:367-406 | for any two such lists, after an expired lease and a second claim, a reachable state in which the two dispatches are all that is open and neither can go on |
| OutboxContention.GapsBlockTwoMessages | apps/worker/src/server.ts:371-406 | under gap locks, a reachable state in which two workers that dispatch different messages have each looked up their first child, and neither insert can go on |
| OutboxContention.GapsBlockOneOrder | apps/worker/src/server.ts:371-406 | and one in which two dispatches of one message with the same list are blocked in that way |
| OutboxContention.SweepMeetsLateDispatch | apps/worker/src/server.ts:299-307 | without gap locks, a reachable state in which a sweep and a dispatch that found a child of an earlier dispatch wait for each other |
| OutboxTransactions.PoolCheckIsNotEnough | apps/worker/src/server.ts:425-432 | a reachable state in which a worker has checked its fence on the pool, the fence is down, and the delivery goes ahead |
| ShiftRegister.Words.ShiftsAreRounds | apps/api/src/infrastructure/safe-xlsx.ts:250-270 | over any carry-free words, shifting an input in bit by bit equals adding it and running the rounds |
| Crc32.RoundsByTable | apps/api/src/infrastructure/safe-xlsx.ts:250-259 | eight rounds over a register are the rounds of its low byte combined with the shifted rest |
| Crc32.ByteByTable | apps/api/src/infrastructure/safe-xlsx.ts:262-269 | one table lookup does the work of eight message bits |
| Crc32.MakeTable | apps/api/src/infrastructure/safe-xlsx.ts:250-260 | every entry of the table is the eight-round image of its index |
| Crc32.Compute | apps/api/src/infrastructure/safe-xlsx.ts:262-270 | for every message the table-driven checksum is the bit-by-bit reflected CRC-32 of RFC 1952, section 8 |
| Crc32.OneChangedByteIsDetected | apps/api/src/infrastructure/safe-xlsx.ts:262-270 | changing one byte of a message, anywhere, changes its checksum |
| ZipFormat.ArchiveReadsBack | apps/api/src/infrastructure/safe-xlsx.ts:279-356 | a reader that takes the end record, walks the central directory and follows the offsets recovers every name, data and checksum |
| ZipFormat.ArchiveLength | apps/api/src/infrastructure/safe-xlsx.ts:272-277 | the archive is exactly as long as its overhead and its data |
| ZipFormat.ArchiveIsInjective | apps/api/src/infrastructure/safe-xlsx.ts:279-356 | different lists of entries never give the same archive |
| ZipFormat.LocalHeaderReadsBack | apps/api/src/infrastructure/safe-xlsx.ts:300-312 | the local header carries every field of PKWARE APPNOTE section 4.3.7 at its offset |
| ZipFormat.CentralHeaderReadsBack | apps/api/src/infrastructure/safe-xlsx.ts:314-332 | the central header carries every field of section 4.3.12 at its offset, with the offset of its local header |
| ZipFormat.EndReadsBack | apps/api/src/infrastructure/safe-xlsx.ts:343-351 | the end record carries disk numbers, both counts, size and offset of the central directory and an empty comment (section 4.3.16) |
| StoredZip.MakeLocalHeader | apps/api/src/infrastructure/safe-xlsx.ts:300-312 | the writes into the 30-byte buffer give that header |
| StoredZip.MakeCentralHeader | apps/api/src/infrastructure/safe-xlsx.ts:314-332 | the writes into the 46-byte buffer give that header |
| StoredZip.ZipItems | apps/api/src/infrastructure/safe-xlsx.ts:284-356 | the loop with its running offset refuses exactly what cannot be archived within the limit, and otherwise writes the archive |
| StoredZip.WriteStoredZip | apps/api/src/infrastructure/safe-xlsx.ts:279-356 | the same with computed checksums and the limits on the number of entries; the output reads back |
| ColumnReference.MakeColumnReference | apps/api/src/infrastructure/safe-xlsx.ts:72-81 | the loop ends with the bijective base-26 text of the column |
| ColumnReference.ColumnsAreAllWords | apps/api/src/infrastructure/safe-xlsx.ts:72-81 | a text is a column reference exactly when it is a non-empty word over A to Z |
| ColumnReference.LettersOfValue | apps/api/src/infrastructure/safe-xlsx.ts:72-81 | decoding and printing a word gives it back |
| ColumnReference.ValueOfLetters | apps/api/src/infrastructure/safe-xlsx.ts:72-81 | printing and decoding a column gives it back |
| ColumnReference.ColumnsAreInOrder | apps/api/src/infrastructure/safe-xlsx.ts:72-81 | columns are ordered exactly as their references are in shortlex order |
| ColumnReference.ReferencesDiffer | apps/api/src/infrastructure/safe-xlsx.ts:168-178 | a reference tells its column and its row: no two places have the same |
| Worksheet.BoundedXmlBuilder.Append | apps/api/src/infrastructure/safe-xlsx.ts:92-97 | a chunk is appended exactly when everything so far fits the limit, and nothing changes otherwise |
| Worksheet.WorksheetXml | apps/api/src/infrastructure/safe-xlsx.ts:135-184 | the worksheet is returned exactly when its rows match the declared size, its cells are accepted and the whole text fits |
| WorksheetReader.WorksheetReadsBack | apps/api/src/infrastructure/safe-xlsx.ts:135-184 | a reader that looks for the opening tags of cells in the text of an accepted worksheet finds exactly its cells, row by row: cell c of row r with the letters of c followed by r as its reference, and with its own text |
| WorksheetReader.WorksheetGrid | apps/api/src/infrastructure/safe-xlsx.ts:162-180 | the references found are pairwise different, every cell is found under its column and row, and nothing else is found |
| WorksheetReader.DimensionIsLast | apps/api/src/infrastructure/safe-xlsx.ts:143-146 | the text begins with declaration, root and a dimension from A1 to the last column and row |
| SafeXlsx.BudgetSuffices | apps/api/src/infrastructure/safe-xlsx.ts:384-411 | entries within the byte budget pass every check of the archive writer, the final size check included |
| SafeXlsx.ValidateSheets | apps/api/src/infrastructure/safe-xlsx.ts:104-133 | sheets are accepted exactly when each has a name of 1 to 31 permitted characters, a size and widths in range, and no two names agree in lower case |
| SafeXlsx.AcceptedSheets | apps/api/src/infrastructure/safe-xlsx.ts:99-133 | accepted are exactly names of 1 to 31 units that XML and Excel allow, up to 2^20 rows and 2^14 columns, widths above 0 up to 255 for at most all columns, and names that differ in lower case |
| SafeXlsx.XmlTextIsChars | apps/api/src/infrastructure/safe-xlsx.ts:12-13 | the check on code units accepts exactly the texts whose code points are characters of XML 1.0, where a surrogate pair is one code point |
| SafeXlsx.CreateSafeXlsx | apps/api/src/infrastructure/safe-xlsx.ts:358-416 | a workbook is produced exactly when its sheets are accepted and overhead and data fit, and it is the archive of exactly its parts |
| SafeXlsx.WorkbookReadsBack | apps/api/src/infrastructure/safe-xlsx.ts:371-416 | a reader of the archive finds content types, relationships, workbook and styles under their names and then worksheet k under sheet k+1, each with its own text, and nothing else |
| RowLocks.NormalizedIds | database/runtime/row-lock.ts:55-58 | the normalized ids are strictly ascending and are exactly the given ones; any bad id is an error |
| RowLocks.AscendingIsUnique | database/runtime/row-lock.ts:57 | there is one such list, whatever the sorting algorithm |
| RowLocks.PlanIsOrdered | database/runtime/row-lock.ts:75-107 | every plan follows one global order, payment requests before exceptions, and locks exactly the rows asked for |
| RowLocks.WrappersAgree | database/runtime/row-lock.ts:109-139 | the wrappers lock what the general form does, although they normalize twice; no ids is an error |
| RowLocks.LockSession.WithLockedFinancialRows | database/runtime/row-lock.ts:75-107 | by cases of the error branches: which rows are locked, in which order, and that the work runs only with all of them |
| LockProtocol.NoDeadlock | database/runtime/row-lock.ts:97-106 | in every reachable state with any number of transactions some unfinished one can take its next step |
| LockProtocol.WorkIsExclusive | database/runtime/row-lock.ts:97-106 | two transactions with a row in common are never at work together |
| LockProtocol.AllCanEnd | database/runtime/row-lock.ts:97-106 | from every such state all transactions can end, in exactly the remaining number of steps |
| LockProtocol.RunsAreBounded | database/runtime/row-lock.ts:97-106 | no schedule of their steps is longer than that |
| LockProtocol.DeadlockWithoutOrder | database/runtime/row-lock.ts:57 | two plans that disagree on the order of two rows can block each other for good |
| PaymentGuard.EvaluatePayableLedger | apps/web/app/lib/payment-guard.ts:45-62 | the loop gives the net, the remainder, the bounds check or the first error of the ledger |
| PaymentGuard.LedgerMeaning | apps/web/app/lib/payment-guard.ts:45-62 | a ledger is accepted exactly when its total is valid, its records are well formed and every running sum is safe; the net is the sum of its payable amounts, and the remainder and the bounds are those of net and total |
| PaymentGuard.PayableMeaning | apps/web/app/lib/payment-guard.ts:22-43 | from the fields of a record: what makes it well formed by sign, type and exception id, and that it counts exactly if it is a payment, correction or reversal without an invoice exception |
| PaymentGuard.NetIgnoresOrder | apps/web/app/lib/payment-guard.ts:48-55 | accepted in two orders, a ledger evaluates the same |
| PaymentGuard.AcceptanceDependsOnOrder | apps/web/app/lib/payment-guard.ts:52-54 | one multiset of records is refused in one order and accepted in another |
| PaymentGuard.AcceptedInEveryOrder | apps/web/app/lib/payment-guard.ts:45-62 | a ledger is accepted in every order of its records exactly when the total is valid, the records are well formed, and its positive and its negative payable amounts each add up to a safe integer |
| PaymentGuard.AcceptedInSomeOrder | apps/web/app/lib/payment-guard.ts:45-62 | it is accepted in some order exactly when the total is valid, the records are well formed and the net is a safe integer |
| PaymentGuard.CapacityMeaning | apps/web/app/lib/payment-guard.ts:64-82 | a capacity exists exactly for a positive safe amount on an accepted ledger whose sum stays safe; it tells the net, the net with that amount, whether this exceeds the total, and what is left |
| PaymentGuard.AdmitsMeaning | apps/web/app/lib/payment-guard.ts:64-82 | a payment is admitted exactly when it is positive and safe, and a ledger within bounds stays within its total |
| PaymentGuard.AdmittedStaysInBounds | apps/web/app/lib/payment-guard.ts:64-82 | the ledger with an admitted payment is accepted and within bounds, and its net grows by that amount |
| PaymentProtocol.NoOverPayment | apps/web/app/lib/payment-guard.ts:64-82 | no interleaving of payments under the row lock leads to a net below zero or above the total |
| PaymentProtocol.OneJobPerRequest | database/runtime/row-lock.ts:117-123 | at most one payment works on a request at any time |
| PaymentProtocol.NetIsConserved | apps/web/app/lib/payment-guard.ts:48-55 | the net of a request grows by exactly the committed payments |
| PaymentProtocol.WorkPays | apps/web/app/lib/payment-guard.ts:64-82 | a job at work can append exactly if its payment is admitted on the ledger it reads, once, and its commit adds that payment to that ledger and changes no other |
| PaymentProtocol.ReadingAloneIsNotEnough | apps/web/app/lib/payment-guard.ts:64-82 | a run without the lock in which any two admitted payments read the same ledger and both commit; the ledger stays within bounds exactly when both fit the total together |
| PaymentProtocol.DoublePayment | apps/web/app/lib/payment-guard.ts:64-82 | so every positive total can be paid twice |
| ApprovalEffects.ExecuteKeepsInv | apps/api/src/modules/approvals/supply-approval-effects.ts:336-392 | a committed effect keeps one active price per supplier and SKU and the numbering of effects, and one active primary relation per factory and SKU where that held |
| ApprovalEffects.LatestActiveIsLatest | apps/api/src/modules/approvals/supply-approval-effects.ts:157-163 | the price that is compared is the active one that starts last, ties broken by id |
| ApprovalEffects.SkuKeepsOnePrimary | apps/api/src/modules/approvals/supply-approval-effects.ts:103-117 | activating a relation leaves at most one active primary per factory and SKU |
| ApprovalRuns.PriceEffect | apps/api/src/modules/approvals/supply-approval-effects.ts:156-189 | an approved change retires the one active price the day before the new one, which becomes the only active one; no other price changes |
| ApprovalRuns.PriceRejection | apps/api/src/modules/approvals/supply-approval-effects.ts:190-197 | a rejected change decides its request for good and leaves prices and versions alone |
| ApprovalRuns.SkuEffect | apps/api/src/modules/approvals/supply-approval-effects.ts:103-117 | an approved primary relation is the only active primary afterwards, and no other relation changes its status |
| ApprovalRuns.MarkedItems | apps/api/src/modules/approvals/supply-approval-effects.ts:241-253 | the candidate loop marks exactly the named items and collects exactly their plans |
| ApprovalRuns.PlansAreOrdering | apps/api/src/modules/approvals/supply-approval-effects.ts:275-295 | exactly the collected plans, all in ordering, are set to complete or stay, by whether an item is still open |
| ApprovalRuns.ClaimIsObeyed | apps/api/src/modules/approvals/supply-approval-effects.ts:33-37 | a claim succeeds only if its action asks to approve or to reject, by an authorized reviewer who is not the requester, on an approval of its type at its version, and then exactly if its effect succeeds; that version goes up by one and the decision is recorded, Approved exactly if the action asks to approve |
| ApprovalRuns.PriceDecision | apps/api/src/modules/approvals/supply-approval-effects.ts:125-198 | a successful claim on a price change, by its action: approved, the proposed price is the only active one and its version goes up by one; rejected, prices and their versions stay; the undecided request is decided by the reviewer, and no other changes |
| ApprovalRuns.SkuDecision | apps/api/src/modules/approvals/supply-approval-effects.ts:71-123 | a successful claim on a pending relation, by its action: active or inactive, its version up by one, and exactly the other primaries of its group demoted if it is approved as primary |
| ApprovalRuns.DeviationDecision | apps/api/src/modules/approvals/supply-approval-effects.ts:238-275 | a successful claim on deviations, by its action: which items are closed, and that the order that was pending goes to the factory or is rejected, and no other order changes |
| ApprovalRuns.DeviationPlans | apps/api/src/modules/approvals/supply-approval-effects.ts:275-295 | the plans it touches are exactly those of the named items and the approval's own, all in ordering before, and each is complete afterwards exactly if all its items are within tolerance or approved as exceptions |
| ApprovalRuns.PriceClaimSucceeds | apps/api/src/modules/approvals/supply-approval-effects.ts:125-162 | an admitted claim on a price change succeeds exactly if its payload names the price and its current version, the request is undecided and, to approve it, its current agreement is the active price, or there is none |
| ApprovalRuns.SkuClaimSucceeds | apps/api/src/modules/approvals/supply-approval-effects.ts:71-123 | an admitted claim on a relation succeeds exactly if the relation is pending, with the version and the hash that the payload names |
| ApprovalRuns.DeviationClaimSucceeds | apps/api/src/modules/approvals/supply-approval-effects.ts:238-295 | an admitted claim on deviations succeeds exactly if the payload is a list, the items it names are there, the plans it concerns are all in ordering, and its order, if it is about one, is pending |
| FactoryWrites.WrittenPrice | apps/api/src/modules/suppliers/writes.ts:326-366 | a direct price of a factory is the only active one afterwards; the one it replaces ends the day before and not before its own start, and no other price changes |
| FactoryWrites.PriceIsWritten | apps/api/src/modules/suppliers/writes.ts:302-366 | a direct price is written exactly if the factory has an active relation for supplier and SKU, the price starts after the active one, and the write names the current version, 1 where there is none, and holds its claim; that version alone goes up by one |
| FactoryWrites.WrittenRelation | apps/api/src/modules/suppliers/writes.ts:187-234 | a direct relation is active at once as written; a new one starts at version 1, an old one has its version raised by one, no other relation or version changes, and rows stay unique by factory, supplier and SKU |
| FactoryWrites.OnePrimaryExactly | apps/api/src/modules/suppliers/writes.ts:187-212 | a direct relation write keeps one active primary exactly when it is no primary or no other relation of the factory and SKU is an active primary |
| ApprovalRuns.Database.WritePriceDirectly | apps/api/src/modules/suppliers/writes.ts:302-366 | the statements of a direct price write commit exactly the specified tables, or leave every table as before |
| ApprovalRuns.Database.WriteSkuDirectly | apps/api/src/modules/suppliers/writes.ts:187-234 | the statements of a direct relation write commit exactly the specified tables |
| FactoryWrites.TwoPrimaries | apps/api/src/modules/suppliers/writes.ts:187-212 | two suppliers written directly as primary for one factory and SKU are both active primaries |
| ApprovalRuns.HistoryKeeps | apps/api/src/modules/approvals/supply-approval-effects.ts:336-392 | one active price and the numbering of effects hold after any run of effects, submissions and direct writes |
| ApprovalRuns.EventKeepsPrimary | apps/api/src/modules/suppliers/writes.ts:187-212 | of all events of a run, exactly a disputed direct write of a primary ends the uniqueness of active primaries |
| ApprovalRuns.HistoryKeepsPrimary | apps/api/src/modules/approvals/supply-approval-effects.ts:336-392 | one active primary per factory and SKU holds after any run whose direct writes are undisputed |
| PriceTransactions.OneActiveExactly | apps/api/src/modules/suppliers/writes.ts:317-371 | statement by statement, with or without gap locks: approved and direct price changes keep one active price all the time exactly if each writer that commits has read the price at the version that it expects |
| PriceTransactions.CommitExactly | apps/api/src/modules/suppliers/writes.ts:333-366 | of the writers about to commit, exactly those that read at another version have a stale reading; they are direct, have found no price, and put one beside the active price |
| PriceTransactions.OneActiveAlways | apps/api/src/modules/suppliers/writes.ts:317-371 | so one active price holds in every interleaving under gap locks, and in every one in which all committed writers read at the version that they expect |
| PriceTransactions.NotAheadIsGuarded | apps/api/src/modules/suppliers/writes.ts:317-344 | for which it is enough that no direct write is ahead of the version when it reads |
| PriceTransactions.DirectCommitIsAtomic | apps/api/src/modules/suppliers/writes.ts:317-371 | the statements of a direct price write are, at its commit, one step on the tables of that moment |
| PriceTransactions.ApprovalCommitIsAtomic | apps/api/src/modules/approvals/supply-approval-effects.ts:149-189 | and so are those of an approved price change |
| PriceTransactions.AheadOfTheVersion | apps/api/src/modules/suppliers/writes.ts:317-344 | without gap locks, a direct write that finds no price and sends any later version leaves two active prices, after as many direct writes as it is ahead |
| PriceTransactions.OneKindAdvances | apps/api/src/modules/approvals/supply-approval-effects.ts:149-162 | approvals alone, or direct writes that replace a price, never all wait for each other |
| PriceTransactions.OppositeOrders | apps/api/src/modules/suppliers/writes.ts:317-333 | an approval locks the version row before the price and a direct write after it: a reachable state in which the two block each other |
| PriceTransactions.GapsBlock | apps/api/src/modules/suppliers/writes.ts:317-371 | a reachable state in which two direct writes of a first price block each other by gap locks |
| RelationTransactions.StepKeepsInv | apps/api/src/modules/approvals/supply-approval-effects.ts:103-123 | with range locks, of all statements and commits exactly a disputed direct write ends the uniqueness of active primaries |
| RelationTransactions.OnePrimaryAlways | apps/api/src/modules/approvals/supply-approval-effects.ts:103-123 | so one active primary per factory and SKU holds in every interleaving of statements whose direct writes are undisputed when they commit |
| RelationTransactions.ApprovalCommitIsAtomic | apps/api/src/modules/approvals/supply-approval-effects.ts:71-123 | the statements of an approval are, at its commit, one step on the tables of that moment |
| RelationTransactions.CommitExactly | apps/api/src/modules/approvals/supply-approval-effects.ts:103-123 | with or without range locks: which commits keep one active primary, namely undisputed direct writes, submissions, and approvals into whose group no active primary has entered since the demotion |
| RelationTransactions.OnePrimaryThroughout | apps/api/src/modules/approvals/supply-approval-effects.ts:103-123 | so one active primary per factory and SKU holds all the time exactly if every commit of the run is one of these |
| RelationTransactions.RangesAreNeeded | apps/api/src/modules/approvals/supply-approval-effects.ts:103-109 | without range locks, a primary written directly between the demotion and the commit of an approval is not demoted: both are active |
| ApprovalRuns.OneEffectPerVersion | apps/api/src/modules/approvals/supply-approval-effects.ts:355-376 | over any run an approval has at most one committed effect per version |
| ApprovalRuns.ClaimIsSpent | apps/api/src/modules/approvals/supply-approval-effects.ts:355-376 | a claim whose effect was committed is refused ever after |
| ApprovalRuns.Database.DoPlanDeviation | apps/api/src/modules/approvals/supply-approval-effects.ts:238-296 | the two loops and the order update leave exactly the specified tables, or the error |
| ApprovalRuns.Database.DoSupplierPrice | apps/api/src/modules/approvals/supply-approval-effects.ts:125-197 | the statements in their order leave exactly the specified tables, or the error |
| ApprovalRuns.Database.DoSupplierSku | apps/api/src/modules/approvals/supply-approval-effects.ts:71-123 | the statements in their order leave exactly the specified tables, or the error |
| ApprovalRuns.Database.ExecuteEffect | apps/api/src/modules/approvals/supply-approval-effects.ts:336-392 | the whole effect is committed, or every table is as before |
| PaymentDate.CalculatePlannedPaymentDate | apps/web/app/lib/business-rules.ts:69-102 | the steps on Date objects, with their ranges and errors, give the planned date |
| PaymentDate.PlannedExactly | apps/web/app/lib/business-rules.ts:69-89 | a date is planned exactly for a shipment that is a date, whole days that are not negative, or terms from 1 to 31 with 25 for a missing one, and if every date on the way is a time |
| PaymentDate.GregorianIsCalendar | apps/web/app/lib/business-rules.ts:90-99 | the months of the Gregorian calendar follow without gaps, have 28 to 31 days, at most 92 in three, and are looked up with their own length |
| PaymentDate.MonthLengths | apps/web/app/lib/business-rules.ts:90-99 | the twelve lengths of the months of any year, by whether it is a leap year |
| PaymentDate.YearStarts | apps/web/app/lib/business-rules.ts:90-99 | counting months from 1970 in either direction, 1 January of every year is where 365 days a year and the leap days, every fourth year but not every hundredth but every four hundredth, put it |
| PaymentDate.DayNumbersAreOrdered | apps/web/app/lib/business-rules.ts:90-101 | dates are ordered as their day numbers, and no two share one |
| PaymentDate.PlusDaysIsExact | apps/web/app/lib/business-rules.ts:78-83 | the first mode gives the date exactly that many days later, across months and years |
| PaymentDate.MonthlyIsValid | apps/web/app/lib/business-rules.ts:89-101 | the monthly mode gives a date of the calendar: the payment day or the last day of a shorter month |
| PaymentDate.CutoffEndsThePeriod | apps/web/app/lib/business-rules.ts:89-101 | a shipment up to and on the cutoff day is due like one on the first of its month, in the next month; a later one like one on the first of the next month |
| PaymentDate.DueWithinNinetyDays | apps/web/app/lib/business-rules.ts:89-101 | the date is after the shipment, and at most 90 days after it exactly outside the years 0 to 99 |
| PaymentDate.GregorianDueDates | apps/web/app/lib/business-rules.ts:89-101 | the bound for the Gregorian calendar |
| PaymentDate.NinetyDaysHappen | apps/web/app/lib/business-rules.ts:89-101 | the bound is reached in every such year |
| PaymentDate.MonthlyIsMonotone | apps/web/app/lib/business-rules.ts:89-101 | a later shipment is never due earlier, unless only the earlier one lies in the years 0 to 99 |
| PaymentDate.OrderFollowsTarget | apps/web/app/lib/business-rules.ts:89-101 | for any two shipments the due dates are in order exactly when the target months are |
| PaymentDate.CenturyBreaksOrder | apps/web/app/lib/business-rules.ts:90-94 | two shipments at the end of the year 99 whose due dates are in the wrong order |

## Left out

- Email and SMS delivery: the provider is called before the row is completed, so a pause or a crash in
  between repeats it; only the transactional topics are claimed to be dispatched exactly once.
- `pause` writes its next time with MySQL's clock and format, every other step with ISO text of the
  worker's clock; the model uses one non-decreasing clock for both.
- A worker transaction reads the clock once in the model, where the code reads it for each value; ids
  of new outbox rows are given at the commit. A sweep is taken to scan in the order of its index,
  outbox_lease_idx. A statement of the API that queues a message is a transaction of its own.
- OutboxDeadlock.NoDeadlock: of the gap locks that the default isolation level takes it covers those of
  the child lookups, given as a relation on keys; the index ranges that the update and the select of a
  claim lock at that level, and the dispatch's in-app and email records, are not modelled. `NO_GAPS` is
  READ COMMITTED, where there are none.
- Digests: the SHA-256 of a canonical text is modelled by the text itself. Numbers are the decimal
  text that `JSON.stringify` gives them. Command rows are not purged.
- The upload flow of the browser, the request headers and the digest header check are not modelled; a
  call may bring its own key, but the end-to-end theorems are about the keys the browser generates.
- DatabaseTransaction.Transaction: timers, promises and the pool are reduced to the winner of each
  race and to what the server has done by then; single statements inside the callback are not steps.
- XML text: `Worksheet` is proved for any markup around the cells, `WorksheetReader` for the one of the
  code. The escaped texts of cells, the texts of numbers and widths, the parts besides the worksheets
  and the lower case of sheet names are parameters. `ZipFormat.Archive` has no ZIP64 records, as the writer refuses
  what would need them.
- Other supply effects: onboarding, SKU verification, BOM and plan versions and the two factory
  exceptions may throw or leave plans, items and orders in any state; reminders, audit texts and event
  payloads are not modelled.
- ApprovalRuns.HistoryKeeps: takes a transaction as one step, as the statements of price and relation
  changes are shown to be in `PriceTransactions` and `RelationTransactions`; between effects it allows
  only submissions that add no price and no active primary relation; who may write directly, and the
  evidence file, are checked before the model starts.
- PaymentProtocol.NoOverPayment: the callers of the guard are not part of it; the work body (read,
  check, append) is this model's, and payments are the only writers of a ledger.
- Payment dates: payment terms are integers, and a date is not rendered as text, so the shape of years
  outside four digits is not covered.
- Lock waits with a timeout and MySQL's own deadlock detection are not modelled, nor gap locks outside
  the price, relation and dispatch transactions: a lock is granted when no unfinished transaction holds
  it, and any transaction may be rolled back where it stands.
- MutationClient.CodeDecides: which codes an error before the command may have is read off the routes
  and the error handler, as of this version: only the refusal of a locked account is TOO_MANY_REQUESTS,
  and auth.login and auth.verify do not authenticate first.
- Results of commands are texts; what the three routes read from them is given with each text.
- React pages, schemas, sessions, cryptography, file scanning and the remaining business rules are not
  modelled; of the routes, only what they do with the result of a command is.
