# Airbrew: a verified model of its stateful cores

Airbrew is a self-hosted workspace server. This project models the parts of it whose
correctness spans several functions, and proves what those parts are for.

| Modules | What they model |
|---|---|
| DriveTree, DriveOps, DriveRuns, DriveCopy, DriveOrder, DriveStore, UploadLimit | The drive: one parent-pointer forest per user with soft delete, restore, recursive copy, the circular-move guard, permanent delete and a byte quota |
| Transcript, ToolStream | The AI transcript: trimming and repairing it, and reassembling streamed tool calls |
| ConvStore, ConvRuns | Conversations: atomic appends, revisions, and the run lease with its heartbeat |
| Outbox, OutboxRetry | The mail outbox: claims, retries, back-off, and the race of sweeper and manual retry |
| ChatReplay, ChatHub, ChatDelivery | Chat delivery: the cursor pages, the hub's bounded buffers, and one browser's event streams, reconnects included, among many senders |
| VCardText, VCardLines, VCardBreaks, VCard, VCardTrip | Contacts as vCards (RFC 6350): escaping, folding, line breaks, cards, reading, writing, and the whole round trip |
| Pop3 | Reading a multi-line POP3 response (section 3 of RFC 1939) |
| RateLimit, PasswordHistory | The fixed-window limiter and the password-reuse history |
| Text, Sequences, Options, Clock | White space trimming and character order, facts about sequences, optional values and the clock, shared |

How to read it. A SQL table is a map or a sequence, and one repository call or one
transaction is one atomic step. Code that changes state in place is a class with methods, or
a method with the loop of the source; each is proved against functions on plain values
(`Trashed`, `Restored`, `IsCopy`, `Repair`, `Missed`, `Retr`, ...), and the theorems are about
those functions. Beside them stand statements without their names, told by rows, times, counts and
characters, that say what each of them comes to. Protocols that interleave (run lease, outbox, chat stream) are state machines:
`Next` gives the effect of one step, `After` folds any list of steps, and a step that is not
enabled changes nothing, so a statement about `After` is one about every interleaving. A step
of these machines uses the same functions (`Acquired`, `Append`, `Claimed`, `PageAt`, `Offer`)
that the class methods are proved against. A drive is made with `mayFail`, which says whether a
call to its stores may fail; contracts promise success where it may not. Times are whole ticks;
where the source cuts to seconds the model divides by `SECOND`, because two of the results depend
on that cut. Strings are sequences of characters.

## Where the code differs from its comments or documentation, or has a sharper edge than they say

The code is modelled as it is; each of these is proved.

- An upload of exactly the size limit is refused unless its last chunk arrives together with
  the end of the stream (`UploadLimit.CapAtTheBoundary`, `UploadLimit.ExactCapRejected`).
- Restoring a row that the trash view does not list leaves a live row under a trashed one, and
  emptying the trash then deletes it by the foreign key, which docs/drive.md states and
  internal/db/db.go:35 switches on; a row that the view lists is safe (`DriveOps.RestoredRowLostIff`,
  `DriveOps.RestoreKeepsInvIff`). Trashing and restoring undo each other if and only if
  nothing below was trashed in that very second (`DriveOps.RestoreUndoesTrashIff`).
- With a page limit of exactly 500, a replay page can say that nothing remains when rows do
  (`ChatReplay.PageHonestIff`); the handler asks for 200.
- The hub's comment says that a client recovers a dropped message by replay on reconnect. A replay
  writes exactly the messages between the cursor the browser came with and the one the replay has
  reached (`ChatDelivery.ReplayBringsExactly`). So one that ends uncut recovers the message if and
  only if, before reconnecting, the browser had read neither a ready cursor at or behind it nor a
  message frame of a later second (`ChatDelivery.ReplayBringsIff`; the browser's cursor moves as in
  web/src/pages/chat/index.tsx:145-182), and one cut short by the cap hands the rest to the next
  (`ChatDelivery.CappedHandsOver`). After two runs no frame of any later stream brings a message:
  one was dropped by a full channel, one committed late (`ChatDelivery.ReconnectLoses`). What the
  page fetches outside the stream is not modelled.
- The two-minute outbox claim covers sections of up to 119 seconds, not 120, as times are cut to
  seconds (`OutboxRetry.OneAtTheDriver`, `OutboxRetry.LongerSectionsOverlap`). The run lease
  loses the same second (`ConvRuns.HeartbeatIsTimely`, `ConvRuns.LateHeartbeatOverlaps`).
- The name of a streamed tool call is fixed by the time the call is announced; a name fragment
  after that is lost (`ToolStream.NameExact`, `ToolStream.LateNameLost`). So is its id (`ToolStream.IdExact`).
- Components of a structured vCard value lose backslashes, since splitting already removes one
  level before unescaping (`VCardText.ComponentKeptIff`). Types are printed raw
  (`VCardLines.ColonInType`). The comment on `unfold` says that CR is normalized to LF; the code
  only trims CRs at line ends, and the lines agree with those of the normalized text if and only
  if no CR stands before anything but an LF or the end (`VCardBreaks.BareCRIsNoBreakIff`).
- The rate limiter admits up to `2 * limit - 1` requests in a closed interval of one window, not
  `limit`; the bound is met (`RateLimit.RealWindowAdmits`, `RateLimit.BoundIsMet`).
- Former passwords carry whole seconds. Pruning to n keeps the last n of them, whatever the
  database answers, if and only if the rows on the two sides of the cut differ in their second
  (`PasswordHistory.NewestAreLastIff`); otherwise the newer of the two may be the one forgotten
  (`PasswordHistory.TieForgetsNewer`).
- A POP3 message of exactly the cap is refused if and only if its last line begins with a dot
  (`Pop3.RetrieveRoundTrip`).

## Model

| member | source | states |
|---|---|---|
| DriveTree.EveryChainEnds | internal/drive/files/repository.go:532-556 | In an acyclic table every climb along parents leaves the table after finitely many steps |
| DriveTree.NoCycle | internal/drive/files/service.go:288-316 | In an acyclic table no row is its own ancestor |
| DriveTree.UnderLinear | internal/drive/files/repository.go:561-601 | Two ancestors of one row are themselves one above the other: a path is a single chain |
| DriveTree.SiblingsDisjoint | internal/drive/files/service.go:377-434 | Subtrees of two children of a folder share nothing |
| DriveTree.TotalByRow | internal/drive/files/repository.go:604-613 | Row by row what TotalSize counts: a live file of the user with its size, any other row not at all |
| DriveOps.MoveForest | internal/drive/files/service.go:288-316 | A move outside the moved subtree keeps the forest: acyclic, parents are folders of the same owner |
| DriveOps.MoveIntoSubtreeBreaksForest | internal/drive/files/service.go:288-316 | The guard is exact: a move into the own subtree always makes a cycle |
| DriveOps.CopyForest | internal/drive/files/service.go:377-434 | A copy keeps the forest |
| DriveOps.StepKeepsForest | internal/drive/files/service.go:100-125 | Every drive operation keeps the forest |
| DriveOps.TrashKeepsInv | internal/drive/files/repository.go:380-400 | Trashing keeps the trash invariant: below a row trashed at T everything is trashed, at T or before |
| DriveOps.TrashedBelow | internal/drive/files/repository.go:380-400 | Under that invariant no descendant of a trashed row is live or trashed later |
| DriveOps.TrashedExact | internal/drive/files/repository.go:380-400 | Though its query passes through live rows only, in a table with the invariant Trash stamps every live row below the one trashed, and nothing else |
| DriveOps.RestoreUpwardClosed | internal/drive/files/repository.go:405-432 | Restore brings back an upward-closed part of the subtree: with each row also its parent, up to the restored one |
| DriveOps.RestoredExact | internal/drive/files/repository.go:405-432 | Told without the query: exactly the rows below the one restored that carry its stamp lose it |
| DriveOps.RestoreKeepsInvIff | internal/drive/files/repository.go:148-179 | Restore keeps the trash invariant if and only if the row is one the trash view lists |
| DriveOps.RestoredRowLostIff | internal/drive/files/repository.go:494-528 | In every table that keeps the trash invariant, a row just restored is deleted by the next EmptyTrash, although live, if and only if the trash view did not list it |
| DriveOps.RestoreUnlistedLosesRow | internal/drive/files/service.go:456-474 | A table where that happens: such restores are possible |
| DriveOps.RestoreUndoesTrashIff | internal/drive/files/repository.go:405-432 | Restore after Trash gives back the very same table if and only if no row of the subtree carried the new stamp before |
| DriveOps.EmptyTrashExact | internal/drive/files/repository.go:494-528 | Under the invariant the foreign-key cascade of EmptyTrash deletes the trashed rows and nothing else |
| DriveOps.EmptiedExact | internal/drive/files/repository.go:494-528 | Afterwards every row of the user is live; and under the invariant every row that was live, or another user's, is still there unchanged |
| DriveOps.StepKeepsTrash | internal/drive/files/repository.go:148-154 | Every operation keeps the trash invariant on a non-decreasing clock, restores being of listed rows |
| DriveRuns.RunForest | internal/drive/files/service.go:288-316 | Every table of every run of operations is a forest |
| DriveRuns.RunTrash | internal/drive/files/repository.go:380-432 | The trash invariant holds in every table of every run that restores only listed rows |
| DriveRuns.RunTrashSafe | internal/drive/files/repository.go:494-528 | In such a run no live row is ever under a trashed one and EmptyTrash never deletes a folder above a live row |
| DriveRuns.CopyRaisesBySubtreeSize | internal/drive/files/service.go:355-375 | A copy raises the owner's live total by exactly SubtreeSize |
| DriveRuns.RestoreTotal | internal/drive/files/repository.go:292-309 | A restore raises the live total by the restored set, which is at most SubtreeSizeAny; other users' totals stay |
| DriveRuns.StepKeepsQuota | internal/drive/files/repository.go:74-120 | With a quota each operation leaves every user's live total at most the larger of the old total and the quota |
| DriveRuns.RunQuota | internal/drive/files/service.go:130-190 | Over every run from an empty drive no user's live total exceeds the quota |
| DriveCopy.GraftKeepsSubtree | internal/drive/files/service.go:320-353 | Rows grafted outside a subtree do not change it: what is copied is not fed by the copy |
| DriveCopy.ChildReady | internal/drive/files/service.go:377-434 | Half-way through a copy, a child not yet copied still has its rows, its size still fits the quota, and its subtree is strictly smaller: the recursion terminates and no per-file quota test can fail |
| DriveCopy.CopyJoin | internal/drive/files/service.go:377-434 | A partial copy joined with the copy of one more child is a partial copy |
| DriveCopy.CopyWhole | internal/drive/files/service.go:377-434 | When every live child is done the copy is isomorphic to the whole live subtree |
| DriveCopy.CopyUndone | internal/drive/files/service.go:377-434 | Deleting the root of a partial copy permanently gives back the table as it was |
| DriveStore.CollectSubtree | internal/drive/files/repository.go:380-400 | The recursive query's fixpoint: exactly the rows under the root |
| DriveStore.CollectCascade | internal/drive/files/repository.go:494-528 | The foreign-key cascade's fixpoint: exactly the rows with an ancestor in the set |
| DriveStore.NameKeptIff | internal/drive/files/service.go:690-703 | A name is refused exactly when trimming leaves nothing, a dot or two, or a slash, backslash or NUL; else it is kept trimmed, up to 255 characters |
| DriveStore.CopyNamed | internal/drive/files/service.go:436-441 | A copy takes a good new name; else the old one, with "Copy of" in front (cut to 255) exactly when it stays in the same folder |
| DriveStore.Duplicated | internal/drive/files/service.go:377-434 | A finished copy, row by row: nothing old changed; every live row below the source has one double with its owner, kind, size and star, live, under the double of its parent; a file's double has the same bytes in a new blob |
| DriveStore.Drive.IsDescendant | internal/drive/files/repository.go:532-556 | For any ids the walk terminates and answers true exactly for the root itself and the user's rows below it |
| DriveStore.Drive.GetPath | internal/drive/files/repository.go:561-601 | The chain from the top to the row: linked by parents, holding exactly its ancestors; fails only for a row the user does not own |
| DriveStore.Drive.ListChildren | internal/drive/files/repository.go:242-266 | Each live child of the parent exactly once and nothing else, folders first, then by name without regard to case, then by name |
| DriveStore.Drive.SubtreeSize | internal/drive/files/repository.go:269-286 | The bytes of the (live) subtree |
| DriveStore.Drive.TotalSize | internal/drive/files/repository.go:604-613 | The user's live bytes |
| DriveStore.Drive.CreateFolder | internal/drive/files/service.go:100-125 | The new row for a good name and target, unless the store fails; else the exact error: empty name, missing parent, parent that is no folder |
| DriveStore.Drive.Upload | internal/drive/files/service.go:130-190 | With a good name and target the answer is decided by cap, stream and quota, unless the store fails: on success one row and one blob with the whole content; on every failure rows and blobs as before |
| DriveStore.Drive.CreateNodeWithQuota | internal/drive/files/repository.go:74-120 | ErrQuotaExceeded exactly when the live total would pass the quota; otherwise inserts, unless the store fails |
| DriveStore.Drive.Move | internal/drive/files/service.go:288-316 | Succeeds exactly when the row is live, the target is a live folder of the user or the top, and the target is outside the subtree; ErrCircularMove exactly when it is inside |
| DriveStore.Drive.Copy | internal/drive/files/service.go:320-353 | With a live source, the target outside it and the size fitting it succeeds unless the store fails: a row-by-row duplicate of the live subtree, the live total raised by SubtreeSize; each error exactly when its condition holds; on failure rows and blobs as before |
| DriveStore.Drive.CopyTree | internal/drive/files/service.go:377-434 | Terminates and copies the whole live subtree; fails only by a store failure, handed up from wherever it happened, and then leaves nothing behind; so no quota test inside fails |
| DriveStore.Drive.EnsureCopyQuota | internal/drive/files/service.go:355-375 | True exactly when the live subtree fits the quota once more, or there is no quota |
| DriveStore.Drive.Trash | internal/drive/files/repository.go:380-400 | Stamps the live rows of the subtree, under the invariant every live row below and no other; NotFound exactly when the row is not a live one of the user |
| DriveStore.Drive.Restore | internal/drive/files/service.go:456-474 | The quota test against SubtreeSizeAny, then the rows with the same stamp; keeps the trash invariant if and only if the row was listed |
| DriveStore.Drive.RestoreRows | internal/drive/files/repository.go:405-432 | The rows of the subtree with the root's stamp become live, no others |
| DriveStore.Drive.DeletePermanent | internal/drive/files/repository.go:438-489 | Deletes exactly the rows below the one named, and their blobs; other rows stay and no orphan remains |
| DriveStore.Drive.EmptyTrash | internal/drive/files/repository.go:494-528 | Deletes the trashed rows with their cascade, and the blobs of the trashed rows: no trashed row of the user is left, and under the invariant every live row and every row of others stays |
| UploadLimit.ReadLimited | internal/drive/files/service.go:715-726 | Too large exactly when the cap does not admit the chunks, else the whole content, or the error of a stream that broke |
| UploadLimit.CapAtTheBoundary | internal/drive/files/service.go:715-726 | Below the cap every upload is admitted, above it none, at the cap exactly those whose last chunk carries the end; a cap of zero or less admits all |
| UploadLimit.ExactCapRejected | internal/drive/files/service.go:715-726 | An upload of exactly the cap that is refused |
| Transcript.HasCompleteToolResults | internal/ai/agent/agent.go:445-457 | True exactly when the calls are followed by their results, in order |
| Transcript.WellFormedIff | internal/ai/agent/agent.go:419-457 | Being made of whole blocks is what a provider demands, told row by row: every assistant row is followed at once by one result per call, in order with matching ids, and every tool row stands behind such a row |
| Transcript.RepairToolTranscript | internal/ai/agent/agent.go:419-443 | The index loop computes the repaired transcript |
| Transcript.RepairIsWellFormed | internal/ai/agent/agent.go:419-443 | From any input the result is a sequence of whole blocks |
| Transcript.RepairKeepsWellFormed | internal/ai/agent/agent.go:419-443 | A sequence of whole blocks is not changed |
| Transcript.RepairIdempotent | internal/ai/agent/agent.go:419-443 | Repairing twice is repairing once |
| Transcript.RepairByPosition | internal/ai/agent/agent.go:419-443 | Which rows are kept, position by position: plain rows and complete exchanges |
| Transcript.RepairKeepsPlainRows | internal/ai/agent/agent.go:419-443 | Every row that is neither a tool row nor a calling assistant row is kept, in order |
| Transcript.RepairIsSubsequence | internal/ai/agent/agent.go:419-443 | Nothing is invented or reordered |
| Transcript.TrimIsLongestLegalSuffix | internal/ai/agent/agent.go:412-417 | On whole blocks trimHistory gives the longest suffix of whole blocks of at most n messages |
| Transcript.BuildProviderMessages | internal/ai/agent/agent.go:462-475 | The system prompt in front and stale system rows gone, or the history untouched when there is no prompt |
| Transcript.DropSystemKeepsWellFormed | internal/ai/agent/agent.go:462-475 | Dropping stale system rows never splits an exchange |
| Transcript.ProviderMessages | internal/ai/agent/agent.go:171-312 | Whatever is stored, the messages sent to the provider are whole blocks: what repair leaves of the last 50 rows, with the trimmed prompt alone in front of it if there is one |
| ToolStream.StreamSSE | internal/ai/provider/openai.go:172-259 | The loop over chunks emits the specified deltas |
| ToolStream.HandleFragment | internal/ai/provider/openai.go:172-259 | One fragment: id and name taken over, the call announced once when its id is known, the arguments forwarded |
| ToolStream.StreamReassembles | internal/ai/agent/agent.go:503-526 | For every chunk sequence that finishes, each slot's arguments are the in-order concatenation of its fragments |
| ToolStream.StreamSays | internal/ai/provider/openai.go:219-223 | For every chunk sequence the text sent before the end is the in-order concatenation of the contents of its chunks |
| ToolStream.FinishesIff | internal/ai/provider/openai.go:172-218 | A stream finishes exactly when its first chunk that ends it is a done mark or the usage |
| ToolStream.ReadTurn | internal/ai/agent/agent.go:226-263 | Stream and accumulator together: done exactly when the stream finishes, and then the content is all its text and each slot's arguments are those of its own fragments |
| ToolStream.FragmentsConcat | internal/ai/provider/openai.go:224-230 | The fragments of a stream are those of its chunks in order |
| ToolStream.JoinedConcat | internal/ai/provider/openai.go:238-240 | The arguments joined are those of the fragments in order, whatever else the fragments carry |
| ToolStream.AnnouncedIff | internal/ai/provider/openai.go:235-250 | A call is announced if and only if some fragment brings a function while an id is known |
| ToolStream.CallsTracked | internal/ai/provider/openai.go:172-259 | Each slot depends on its own fragments only, however slots interleave |
| ToolStream.NameExact | internal/ai/provider/openai.go:172-259 | The slot's name is the last one seen up to the announcement, and the last of all if and only if no later fragment ends on another name |
| ToolStream.IdExact | internal/ai/provider/openai.go:172-259 | The slot's id is the last one seen up to the announcement, never empty, and the last of all if and only if no later fragment ends on another id |
| ToolStream.LateNameLost | internal/ai/provider/openai.go:241-250 | A call whose id comes before its name ends up without a name |
| ToolStream.Accumulator.StartTool | internal/ai/agent/agent.go:503-516 | Grows the slots as needed and sets id and name where given |
| ToolStream.Accumulator.AppendToolArgs | internal/ai/agent/agent.go:518-526 | Grows the slots as needed and appends to that slot alone |
| ToolStream.Accumulator.Consume | internal/ai/agent/agent.go:171-312 | Reads deltas up to the end mark; content and slots are those of the deltas before it |
| ToolStream.Accumulator.CompletedToolCalls | internal/ai/agent/agent.go:528-539 | The filled slots in order, one call for each, with its own name and arguments and its normalized id |
| ToolStream.CompletedIds | internal/ai/agent/agent.go:383-389 | Every completed call has an id, and a non-empty accumulator yields at least one call |
| ToolStream.CompletedAt | internal/ai/agent/agent.go:528-539 | The call of a used slot keeps its name and arguments and stands where the used slots before it put it |
| ToolStream.MadeUpIds | internal/ai/agent/agent.go:383-389 | A missing id is made up from turn and slot, and no two slots of a turn get the same |
| ToolStream.AppendAssistantToolExchange | internal/ai/conv/service.go:190-222 | Accepted exactly when there are calls, one result for each, and each result passes the checks |
| ToolStream.ToolTurn | internal/ai/agent/agent.go:171-312 | The exchange that run builds is always accepted and is one whole block, each result being the truncated answer of its own call |
| ConvStore.MaxNumDense | internal/ai/conv/repository.go:470-527 | On rows numbered 1..n the next number is n + 1 |
| ConvStore.AppendKeepsSound | internal/ai/conv/repository.go:412-464 | Appending whole blocks keeps dense numbers and whole blocks, and raises the revision by one |
| ConvStore.Conversation.AcquireRunLease | internal/ai/conv/repository.go:176-223 | Taken exactly when the conversation exists, is the user's, and no unexpired lease is on it |
| ConvStore.Conversation.RenewRunLease | internal/ai/conv/repository.go:240-255 | Renewed exactly by the run whose row is there |
| ConvStore.Conversation.ReleaseRunLease | internal/ai/conv/repository.go:226-237 | Removes the run's own row only |
| ConvStore.Conversation.AppendMessage | internal/ai/conv/repository.go:470-527 | Appends the one row with the next number and raises the revision by one, exactly when the conversation is the user's and, if a revision is expected, it is live and that is its revision |
| ConvStore.Conversation.AppendMessages | internal/ai/conv/repository.go:412-464 | Appends a batch with consecutive numbers, all or nothing, to the user's own live conversation |
| ConvRuns.TranscriptAlwaysWhole | internal/ai/agent/agent.go:171-312 | Under any interleaving of runs, crashes, expiry and admin deletes the stored transcript is whole blocks numbered 1..n |
| ConvRuns.StepRevision | internal/ai/conv/repository.go:412-527 | A step raises the revision by at most one, exactly one when rows were added, and rows are only added at the end |
| ConvRuns.OneTurnPerRevision | internal/ai/conv/service.go:138-153 | Of two turns started from the same revision at most one appends its user message |
| ConvRuns.UserAppendsToWhatItSaw | internal/ai/conv/repository.go:486-498 | In every interleaving a user message appended under an expected revision joins a live conversation at that revision, whose rows are those of every earlier state of that revision |
| ConvRuns.CurrentTurnAppends | internal/ai/conv/repository.go:470-527 | A leased run whose expected revision is the current one of a live conversation does append its message |
| ConvRuns.TurnAppends | internal/ai/conv/repository.go:412-464 | In its turn a run appends whole exchanges to a live conversation, and its final answer |
| ConvRuns.LeaseMoves | internal/ai/conv/repository.go:176-255 | A waiting run gets the lease of a live conversation exactly when it is free or expired; its owner renews it and gives it back |
| ConvRuns.LostStaysLost | internal/ai/conv/repository.go:226-255 | A run whose lease row is gone cannot renew, and its release removes nothing |
| ConvRuns.LostForever | internal/ai/conv/repository.go:176-269 | It stays without a lease whatever happens next |
| ConvRuns.TimelyExclusive | internal/ai/agent/agent.go:343-370 | If renewals come at most ttl minus one second apart, at most one run is ever active |
| ConvRuns.HeartbeatIsTimely | internal/ai/agent/agent.go:178-187 | The heartbeat of a third of the lease is enough for that, barring admin delete |
| ConvRuns.LateHeartbeatOverlaps | internal/ai/conv/repository.go:176-223 | One tick above that bound two runs are active at once: the bound is sharp |
| ConvRuns.TurnsNeverInterleave | internal/ai/agent/agent.go:171-312 | With timely renewals the rows of one run stand together, opened by its user message |
| Outbox.BackoffDoubles | internal/mail/mail.go:154-203 | The wait is a minute times a power of two, doubling from one minute within the attempt cap |
| Outbox.SixTries | internal/mail/mail.go:154-203 | In any run of sweeps and manual retries, resets included, a new row comes to the sweeper's driver at most six times between two resets, and while in the outbox its counter says how often |
| Outbox.FailedTryBacksOff | internal/mail/mail.go:154-203 | In such a run a failed try and any later one are at least the doubling backoff apart, unless a reset lies between them |
| Outbox.DeliveredStaysOut | internal/mail/inbox/service.go:640-702 | In such a run a message delivered by the sweeper, or by hand, never comes to the sweeper's driver again |
| Outbox.ResetMakesDue | internal/mail/inbox/repository.go:631-643 | A reset makes a row due at once, however often it failed, unless a claim holds it |
| Outbox.Table.ClaimOutbox | internal/mail/inbox/repository.go:652-666 | Won exactly when the row is still in the outbox and unclaimed or expired; then claimed for two minutes |
| Outbox.Table.MarkSent | internal/mail/inbox/repository.go:528-539 | Takes the row out of the outbox and touches no other |
| Outbox.Table.RecordOutboxAttempt | internal/mail/inbox/repository.go:609-624 | Counts the attempt, sets the next time, releases the claim |
| Outbox.Table.ResetOutboxAttempts | internal/mail/inbox/repository.go:631-643 | Forgets attempts and next time and leaves the claim |
| Outbox.Table.ListOutboxDue | internal/mail/inbox/repository.go:575-603 | Only due rows, none twice, in the order of their next attempt; a due row left out comes no earlier than any listed, and only when the limit is reached |
| Outbox.Table.SweepOutbox | internal/mail/mail.go:154-203 | Nothing without a provider; else each due row of the batch is tried once until cancelled: one delivered leaves the outbox, one refused the claim is unchanged, one that failed stays with one attempt more and waits; every other row stays |
| OutboxRetry.OneAtTheDriver | internal/mail/inbox/service.go:640-702 | With sections of at most 119 seconds two RetrySend calls are never at the driver together, and none is after MarkSent |
| OutboxRetry.NeverDeliveredTwice | internal/mail/inbox/service.go:640-702 | Then, without a crash between acceptance and MarkSent, the driver accepts the message at most once |
| OutboxRetry.CrashDeliversTwice | internal/mail/inbox/service.go:640-702 | That condition is needed: with a crash there, sections of no length at all deliver the message twice |
| OutboxRetry.LoneCallDelivers | internal/mail/inbox/service.go:640-702 | A call that finds the row free and is left alone claims it for two minutes, delivers once and takes it out of the outbox |
| OutboxRetry.LoneCallFails | internal/mail/mail.go:154-203 | When the driver fails, a sweeper counts the attempt and frees the row; a manual retry lets its claim expire |
| OutboxRetry.ClaimedRowRefused | internal/mail/inbox/repository.go:652-666 | A call that finds the row claimed ends without touching it |
| OutboxRetry.LongerSectionsOverlap | internal/mail/inbox/repository.go:652-666 | One tick more than 119 seconds and two are at the driver: the bound is sharp |
| OutboxRetry.StepKeepsGuarded | internal/mail/inbox/repository.go:609-666 | Every step, ResetOutboxAttempts included, keeps each open section under a claim of its own |
| ChatReplay.MissedExact | internal/chat/repository.go:340-374 | The list of missed messages holds exactly the visible rows after the cursor, in strict (created_at, rowid) order |
| ChatReplay.MissedOrder | internal/chat/repository.go:340-374 | The same told by times and row ids: a later second, or the same one and a larger row id |
| ChatReplay.MissedResumes | internal/chat/service.go:126-149 | The cursor at any returned row leaves exactly the rows behind it |
| ChatReplay.ListMessagesSince | internal/chat/repository.go:340-374 | The first rows of that list, up to the clamped limit |
| ChatReplay.ReplayMissed | internal/chat/service.go:126-149 | The page, its cursor and hasMore |
| ChatReplay.PageHonestIff | internal/chat/service.go:126-149 | hasMore is true exactly when rows remain, if and only if the limit is not 500 or at most 201 rows remain |
| ChatReplay.PageLeavesRest | internal/chat/service.go:126-149 | What is missed after the page's cursor is exactly what the page left |
| ChatReplay.ReplayAll | internal/chat/handler.go:246-362 | For limits 1 to 499 following the pages terminates and concatenates to exactly the missed messages |
| ChatHub.PublishReachesOnce | internal/chat/hub.go:50-63 | Publish offers the event once to each channel of the listed users and to no other |
| ChatHub.Hub.Subscribe | internal/chat/hub.go:23-43 | A fresh empty channel added for that user |
| ChatHub.Hub.Remove | internal/chat/hub.go:23-43 | Takes the channel out of the map before it may be closed |
| ChatHub.Hub.Close | internal/chat/hub.go:23-43 | Closes a removed channel; with Valid no subscribed channel is ever closed |
| ChatHub.Hub.Publish | internal/chat/hub.go:50-63 | Each channel is offered the event as specified; a closed or leaving channel is never sent to; a full buffer drops the event for that channel alone |
| ChatDelivery.NothingLost | internal/chat/handler.go:246-362 | Under every interleaving, in every connection, each undeleted message after its cursor is written, queued, still to be replayed or published, dropped by a full buffer, behind a replay cut short or failed, or its sender died |
| ChatDelivery.ReplayTurn | internal/chat/handler.go:302-322 | In every run a turn of the replay writes the next messages in order, up to 200; it goes on exactly while messages remain and fewer than 2000 are written, says more exactly when they remain at 2000, and is complete otherwise |
| ChatDelivery.CutOnlyAtTheCap | internal/chat/handler.go:302-322 | Whatever the step, a replay ends with more to come only with at least 2000 messages written |
| ChatDelivery.AlwaysTold | internal/chat/handler.go:315-362 | In every run what is written is read by the browser or on the wire, a ready frame tells the cursor the replay reached, and the channel gives its events in order |
| ChatDelivery.StepLoses | internal/chat/hub.go:50-63 | A message is dropped only by publishing it to a full channel, lost only when its sender gives up, and a replay fails only with its query |
| ChatDelivery.StepShows | internal/chat/repository.go:340-374 | Only messages the user may see at that moment are put on his channel, and only from it or from a page of such messages are they written |
| ChatDelivery.CaughtUp | internal/chat/handler.go:246-362 | Once ready without more, a wanted message that was published and not dropped is written or on the channel |
| ChatDelivery.PageCovers | internal/chat/service.go:126-149 | Reading a page leaves no row after the old cursor behind: it is written or still after the new one |
| ChatDelivery.ChannelBounded | internal/chat/hub.go:23-43 | The channel never holds more than 128 events |
| ChatDelivery.CursorPassedIff | web/src/pages/chat/index.tsx:145-182 | In every run the cursor a browser reconnects with leaves out exactly the rows it passed: by a ready cursor at or behind them, or a message frame of a later second since |
| ChatDelivery.ReplayBringsExactly | internal/chat/handler.go:246-362 | For every run and every next connection, at any point of it: a message whose sending was over before is written to it if and only if it lies behind the cursor the browser came with and not behind the one the replay has reached |
| ChatDelivery.ReplayBringsIff | internal/chat/hub.go:45-50 | Once that replay has ended uncut, such a message is written if and only if the browser had not passed it |
| ChatDelivery.CappedHandsOver | web/src/lib/chat.ts:170-181 | When a replay was cut short and the browser reopens with its ready cursor, what had not been passed was either written or is asked for next, never both |
| ChatDelivery.LostToStream | internal/chat/handler.go:246-362 | No message.created frame of any later stream brings a message passed unread, however often the browser reconnects |
| ChatDelivery.ReconnectLoses | internal/chat/repository.go:380-438 | Two runs after which, whatever follows, no frame brings a message: one dropped by a full channel, one committed late |
| VCardText.EscapeValue | internal/contacts/contact/vcard.go:434-456 | The loop and its short cut compute the escaped value |
| VCardText.UnescapeValue | internal/contacts/contact/vcard.go:317-343 | The loop and its short cut compute the unescaped value |
| VCardText.SplitUnescaped | internal/contacts/contact/vcard.go:236-275 | splitSemicolons and splitCommas: parts between separators no backslash precedes, one level of backslashes removed |
| VCardText.UnescapeEscape | internal/contacts/contact/vcard.go:317-343 | Unescaping an escaped value gives the value without its carriage returns, for every string |
| VCardText.Sequences | internal/contacts/contact/vcard.go:317-343 | Which characters are escaped and how, and what any backslash sequence stands for |
| VCardText.RoundTripIff | internal/contacts/contact/vcard.go:434-456 | So it is the identity exactly on strings without a carriage return |
| VCardText.SplitJoined | internal/contacts/contact/vcard.go:256-275 | Escaped values joined by separators split back into as many parts, in order, whatever they contain |
| VCardText.ComponentKeptIff | internal/contacts/contact/vcard.go:256-275 | A component survives if and only if it has no line break and no backslash before its last position |
| VCardText.TrimmedValue | internal/contacts/contact/vcard.go:146-163 | What trimming before unescaping leaves of a value |
| VCardLines.Unfold | internal/contacts/contact/vcard.go:46-69 | The reading loop computes the logical lines |
| VCardLines.UnfoldUndoesFolding | internal/contacts/contact/vcard.go:46-69 | Unfolding restores lines folded anywhere |
| VCardLines.SplitCards | internal/contacts/contact/vcard.go:73-97 | The scan computes the cards |
| VCardLines.CardWrapped | internal/contacts/contact/vcard.go:73-97 | Lines that open or close nothing, put between BEGIN and END, come back as one card |
| VCardLines.AnyCase | internal/contacts/contact/vcard.go:73-97 | The marks open and close a card in any case and with anything behind them |
| VCardLines.CardRestarts | internal/contacts/contact/vcard.go:73-97 | An opening mark inside a card drops the lines so far, and a closing one outside a card is passed over |
| VCardLines.SplitProperty | internal/contacts/contact/vcard.go:197-221 | Name, parameters and value of a line |
| VCardLines.ContentLineRead | internal/contacts/contact/vcard.go:197-232 | What any printed line is read as: its name, its type and its value, with what a colon or semicolon in the type does to them |
| VCardLines.GroupedLineRead | internal/contacts/contact/vcard.go:207-212 | A line with a group in front of its name is read like the line without it |
| VCardLines.FirstOfTypes | internal/contacts/contact/vcard.go:225-232 | Of several types the first is taken, trimmed and in lower case |
| VCardLines.ColonInType | internal/contacts/contact/vcard.go:375-381 | A colon in a type moves the rest of the type into the value |
| VCardLines.KindKeptIff | internal/contacts/contact/vcard.go:225-232 | A type survives if and only if it is lower-case and trimmed, without comma, colon and semicolon |
| VCardBreaks.BareCRIsNoBreakIff | internal/contacts/contact/vcard.go:43-69 | A bare CR is no line break: the lines are those of the CR-normalized text if and only if there is none, and each one makes a difference of one line |
| VCard.ReadProperty | internal/contacts/contact/vcard.go:101-193 | The switch of the parser, one property at a time: which field each name sets or adds to, how notes join, and exactly which properties make a card a contact |
| VCard.ParseOneCard | internal/contacts/contact/vcard.go:101-193 | The fields of a card, the made-up display name, and whether there was data |
| VCard.ContactIff | internal/contacts/contact/vcard.go:101-193 | A card becomes a contact if and only if one of its lines is a name, a company, or an address or number that is not blank |
| VCard.ParseVCards | internal/contacts/contact/vcard.go:20-41 | The contacts of a text in order, at most 5000 |
| VCard.CollectedIs | internal/contacts/contact/vcard.go:29-39 | What is collected are the contacts found, in order, all of them or the first 5000 |
| VCard.FirstNicknameIs | internal/contacts/contact/vcard.go:127-133 | The nickname is the first item with anything in it, or stays |
| VCard.WriteVCard | internal/contacts/contact/vcard.go:351-431 | The printed lines of one contact, in the writer's order |
| VCard.Written | internal/contacts/contact/vcard.go:351-431 | The lines an import makes nothing of: the marks, the version, the dates; and the UID line, with the id when there is no UID |
| VCard.Export | internal/contacts/contact/vcard.go:351-431 | Contacts written one after the other |
| VCardTrip.CardTaken | internal/contacts/contact/vcard.go:101-193 | Reading the lines of any contact gives exactly the fields kept |
| VCardTrip.AllCards | internal/contacts/contact/vcard.go:73-97 | An export splits into exactly the bodies of its cards |
| VCardTrip.ExportImport | internal/contacts/contact/vcard.go:20-41 | Importing an export, folded in any way, gives exactly what is kept of its first 5000 contacts, in order, whatever their types but for line feeds |
| VCardTrip.ExportImportPlain | internal/contacts/contact/vcard.go:351-431 | The same for the export as written |
| VCardTrip.ContactKeptIff | internal/contacts/contact/vcard.go:351-431 | What is kept of a contact is what it was if and only if its fields meet the listed conditions |
| VCardTrip.ImportedUnbroken | internal/contacts/contact/vcard.go:20-41 | No text at all is imported with a line feed in a type |
| VCardTrip.LosslessIff | internal/contacts/contact/vcard.go:20-41 | For every list of contacts the export brings back each with its own UID, or its id in place of a missing one, and its display name, or one made from its names, if and only if there are at most 5000, each meets the conditions, and no type holds a line feed |
| Pop3.Connection.Retrieve | internal/mail/inbound/pop3client.go:117-153 | The nested loops: message, size error or broken connection, and what is left on the stream |
| Pop3.Connection.ReadString | internal/mail/inbound/pop3client.go:117-153 | Takes exactly the next line off the stream, or everything when there is none |
| Pop3.RetrExact | internal/mail/inbound/pop3client.go:117-153 | From any fill of the buffer: the rest of the message or the size error, and the stream just past the terminator |
| Pop3.CutMessage | internal/mail/inbound/pop3client.go:123-126 | A message cut off anywhere before its terminating line is the read error, in the reading and in the drain loop, whatever was read before |
| Pop3.CutIsBrokenOff | internal/mail/inbound/pop3client.go:123-144 | The same of any lines at all, stuffed properly or not |
| Pop3.EndedIsRead | internal/mail/inbound/pop3client.go:117-153 | Any lines up to the first terminator, with CRLF or bare LF, are the message less one dot of each pair in front, or the size error exactly when some line leaves no room; the stream stands behind that terminator |
| Pop3.InputSplits | internal/mail/inbound/pop3client.go:117-153 | Every input is of one of these two kinds |
| Pop3.WireIs | internal/mail/inbound/pop3client.go:127-149 | The stuffed form is such lines, and losing the dots gives the message back |
| Pop3.RetrieveRoundTrip | internal/mail/inbound/pop3client.go:117-153 | Reading the byte-stuffed form gives the message exactly, or the size error exactly when it is too long; the stream stands just past the terminator |
| Pop3.DrainStopsPastEnd | internal/mail/inbound/pop3client.go:135-144 | Draining stops just past the terminator |
| RateLimit.RateLimiter.Allow | internal/httpserver/middleware/ratelimit.go:47-69 | The answer and the table after, the sweep included |
| RateLimit.SweptFull | internal/httpserver/middleware/ratelimit.go:47-69 | A request that opens a bucket leaves no expired one in a table of more than 4096, and deletes none from a smaller one; no other request deletes any |
| RateLimit.SweptKeeps | internal/httpserver/middleware/ratelimit.go:47-69 | Live buckets of other keys stay as they are |
| RateLimit.SweepNeverShows | internal/httpserver/middleware/ratelimit.go:47-69 | On a non-decreasing clock deleting expired buckets never changes an answer |
| RateLimit.RealWindowAdmits | internal/httpserver/middleware/ratelimit.go:47-69 | Any interval of one window admits at most 2 * limit - 1 requests of a key |
| RateLimit.WindowAdmits | internal/httpserver/middleware/ratelimit.go:47-69 | The same without deletion, with the account of the current bucket: each bucket admits at most limit |
| RateLimit.BoundIsMet | internal/httpserver/middleware/ratelimit.go:47-69 | A run that admits exactly that many |
| PasswordHistory.Credentials.RejectPasswordReuse | internal/auth/user/service.go:261-285 | Refuses exactly the current password and those the query returns; over a clean cut, the recent ones |
| PasswordHistory.Credentials.RecentPasswordHashes | internal/auth/user/repository.go:420-447 | The hashes of some newest rows, newest first, ties falling either way; none for a limit of zero or less |
| PasswordHistory.Credentials.UpdatePassword | internal/auth/user/repository.go:385-417 | The old password goes to the history, the new one becomes current |
| PasswordHistory.Credentials.PrunePasswordHistory | internal/auth/user/repository.go:450-468 | Keeps exactly the rows of some newest-n answer, in order; over a clean cut the last n |
| PasswordHistory.Credentials.ChangePassword | internal/auth/user/service.go:187-217 | Refused for a wrong or recent password with nothing changed, else changed and pruned |
| PasswordHistory.Credentials.AdminSetPassword | internal/auth/user/service.go:221-240 | The same without the current password |
| PasswordHistory.NewestAreLastIff | internal/auth/user/repository.go:450-468 | Every answer to the newest-n query is the last n rows if and only if the two rows at the cut differ in their second |
| PasswordHistory.MoveKeepsExact | internal/auth/user/repository.go:385-417 | A change keeps the history the last min(k, n) former passwords |
| PasswordHistory.RecentMeansLastPasswords | internal/auth/user/service.go:261-285 | The test refuses exactly the n + 1 most recent passwords |
| PasswordHistory.RunChanges | internal/auth/user/service.go:187-292 | For any attempts by user or admin at distinct times each is answered as the passwords so far demand, the account ends with the accepted ones, the history is exactly the last n former ones |
| PasswordHistory.AnswersAt | internal/auth/user/service.go:187-240 | Read position by position: attempt k of a run is answered by the passwords that the attempts before it left |
| PasswordHistory.PasswordsSpread | internal/auth/user/service.go:261-285 | Among the passwords of any run each accepted one differs from the n + 1 before it |
| PasswordHistory.TieForgetsNewer | internal/auth/user/repository.go:450-468 | Whenever the rows at the cut tie, the database may keep the older and prune the newer |

## Left out

- Drive operations are sequential: neither overlapping calls of one user nor the blob janitor are modelled, as the code gives no atomicity across calls there.
- DriveStore.Drive.CopyTree: the cleanup after a failure is taken to succeed, as are blob deletions; the source ignores their errors.
- DriveStore.Drive.Move: a store failure of this and the other operations that change rows in one transaction changes nothing and is left out.
- DriveStore.Drive.ListChildren: creation times are not modelled, so the order of two children with one kind and one name is open.
- DriveStore.Drive.Trash: the clock is non-decreasing whole seconds; updated_at columns are not modelled.
- Byte totals are unbounded integers: overflow of 64-bit sums is not modelled.
- Drive rename, star, share links, zip download, search and sorting: they change one field of one row or only read; rename and star are steps of a run.
- Node, blob, channel and lease ids come from counters or parameters in place of random values.
- Transactions are atomic, and the retry loops on unique-constraint clashes are not modelled.
- ConvRuns.HeartbeatIsTimely: a renewal step is one that reached the database in time; the heartbeat goroutine and its context are not modelled.
- Checks for empty ids and other malformed arguments are left out.
- The in-process lock tryLockRun: exclusion is proved from the durable lease alone.
- The turn loop's tool dispatch is a parameter, usage accounting and event frames are left out, and so is cancellation of a stream.
- ToolStream.Accumulator.StartTool: a slot number is not negative; the source panics on a negative one.
- ToolStream.StreamSSE: chunks are already decoded; line framing and JSON are not modelled.
- The first Send and SendDraft take no claim, so mutual exclusion is about RetrySend callers.
- OutboxRetry.OneAtTheDriver: no database call fails inside a section.
- Outbox.Table.ListOutboxDue: which of two rows with equal next attempts comes first is left open.
- Outbox.SixTries: a try of the sweeper, from claim to record, is one step of the row.
- Outbox.Table.SweepOutbox: how a try ends comes from the driver and the other workers, as a parameter.
- ChatDelivery.LostToStream: the page's own fetches are not modelled; on each ready frame of a reconnect, and when a room is opened, it reads messages outside the stream (web/src/pages/chat/index.tsx:170-203).
- ChatDelivery.ReconnectLoses: the same; it speaks of frames only.
- ChatDelivery.ReplayBringsIff: the browser reads frames in order and loses what it has not read when a connection ends.
- ChatDelivery.NothingLost: room membership is fixed; whether a message is one the client may see is folded into the row.
- Chat edits and deletions appear as events without a replay path, as the source says of them; of deletions only the hidden row matters here.
- VCard.WriteVCard: REV and BDAY values are given as formatted text.
- VCard.ReadProperty: BDAY lines are skipped; parsing dates is library work.
- VCard.ParseOneCard: the birthday is not among the fields read, for the same reason.
- VCard.ParseVCards: text is valid Unicode, without the byte-level treatment of invalid UTF-8; an error of the reader, which ends the import with nothing, is left out, and so is the birthday.
- VCardTrip.ExportImport: what a line feed in a type does to the lines after it is not described; LosslessIff covers such types too.
- VCardLines.SplitProperty: upper-casing is that of the characters whose capital is a Latin letter; no other can match a name.
- VCardLines.KindKeptIff: lower-casing is that of the letters A to Z; other capitals in a type count as kept, which the source lowers too.
- VCardTrip.ContactKeptIff: the same for the types of a contact.
- VCardTrip.LosslessIff: the same for the types of an export.
- Pop3.Connection.Retrieve: the command that asks for the message and its status line are not modelled.
- RateLimit.RateLimiter.Allow: the lock that makes a call atomic is not modelled.
- PasswordHistory.RunChanges: change times are distinct and no write fails; NewestAreLastIff says what ties do. Hashes stand for their passwords.
- PasswordHistory.Credentials.ChangePassword: the length and policy check of the new password comes first in the source and is left out.
- HTTP handlers, SQL text, cryptography, network drivers, MIME and the web client: plumbing without a property of this kind.
