# poplar: a model of its outbox, its sync and its wire formats

poplar keeps an account's mail in a local store, and talks JMAP to a server. What the user does
offline goes into a durable *outbox* of intents, which a *dispatcher* drains in passes; what happens on
the server comes back through a *delta feed* into a *local replica*; and a *push stream* says when to
look. This project models the parts of it where something can go wrong halfway, and proves what the
rest of the program relies on.

| module | file | models |
|---|---|---|
| `Common`, `SyncTypes`, `Ordered` | `common.dfy`, `ordered.dfy` | shared types; ids in increasing order, and the id the next row gets |
| `Backoff` | `backoff.dfy` | the three retry schedules |
| `OutboxRows`, `OutboxMachine` | `outbox_rows.dfy`, `outbox_machine.dfy` | the outbox table, the server, and the protocol over them as a machine of atomic events |
| `OutboxInvariant`, `OutboxSteps`, `OutboxTheorems` | `outbox_invariant.dfy`, `outbox_steps.dfy`, `outbox_theorems.dfy` | what every reachable state satisfies, and what follows |
| `OutboxClaims`, `OutboxRetries` | `outbox_claims.dfy`, `outbox_retries.dfy` | what a claim reads of the store, kept to its intent's end; how often and how long a row waits |
| `OutboxWalk`, `OutboxRefs` | `outbox_walk.dfy`, `outbox_refs.dfy` | the dependent references' rewrites, and what becomes of a reference |
| `OutboxWorld`, `OutboxDispatch` | `outbox_world.dfy`, `outbox_dispatch.dfy` | the writer's transactions and the backend's requests, and the dispatcher over them |
| `OutboxEnqueue` | `outbox_enqueue.dfy` | Undo and the bulk move |
| `Flags`, `Roles`, `MailStore`, `MailWrites` | `flags.dfy`, `roles.dfy`, `mailstore.dfy`, `mailwrites.dfy` | messages, mailboxes, memberships and roles |
| `RecordWrites` | `apply.dfy` | a page's records written into those tables, a chunk to a transaction |
| `DeltaSync`, `MailSync` | `sync.dfy`, `mailsync.dfy` | the feed, and a flush of both kinds into one store |
| `FullResync`, `BaselinePull` | `resync.dfy`, `baseline.dfy` | the resync, and the baseline's pages |
| `QueryChanges`, `Patches`, `EventStream` | `splice.dfy`, `patch.dfy`, `eventstream.dfy` | three algorithms of the JMAP layer |
| `Paging`, `Push` | `paging.dfy`, `push.dfy` | the mailbox list's pages, and the push reopen schedule |

`dafny verify dfyconfig.toml` checks the whole project.

## How the outbox is modelled

`OutboxMachine` has one event for each transaction, each backend answer and each thing the rest of the
world may do: enqueues and undos, other accounts' writes, anything another mail client does to the
server, a crash at any moment, and the startup that follows. A theorem about every reachable state is
therefore one about every run, with crashes, failed transactions and lost answers anywhere in it.

`OutboxWorld` and `OutboxDispatch` are the code in its own imperative form. Every step of it is one
event of the machine, with any number of outside steps in between, so its methods keep `Reachable`
and inherit every theorem; what they add is what one call does. A request whose answer was lost is an
outside step of the server followed by a failed call. Each dispatch also keeps a list of the calls it
made with their answers, and its contract says which decision each list leads to; a whole pass keeps one such
list for each of its turns.

Assumptions, all about what the code is given:

- A transaction is atomic (`internal/store/writer.go:283-300`), and the instance lock means one
  dispatcher per account.
- The server refuses an exact duplicate sibling and never reuses a mailbox id (section 2 of RFC 8621;
  section 1.2 of RFC 8620). Renames, moves and deletes by other clients are allowed, and mark the
  mailbox touched: what is said about a mailbox is said until it is touched.
- `serial`, the birth number of a row, is the model's: the table has no such column. It exists so that a
  statement about an intent survives the reuse of its row id.

## What turned out not to hold

Each is kept as the code has it, with a run that shows it and the exact condition.

- A nested create whose parent's id is not known to the claim or the pass is made at the root
  (`OutboxTheorems.NestedCreateAtRoot`; the condition is
  `OutboxTheorems.NestedCreateLandsUnderItsParentIff`).
- A reference can come to name a create it was never meant for, because row ids are reused
  (`OutboxRefs.CapturedMove`). It happens exactly when the reference named no queued create at enqueue and a
  create was born above the row that holds it (`OutboxTheorems.ReferencesAreCapturedIff`). A pass that claims
  such a pair gives the move up at its own turn, then carries it in the create's batch as well, and reports
  it twice (`OutboxRefs.CapturedMoveIsFiledThoughGivenUp`). That is the only way a row is dispatched twice:
  which rows of a pass are is `OutboxDispatch.CarriedTwiceIff`.
- A delivered create does not leave the queue free of its references. A row enqueued after the walk has seen
  its last page keeps naming it, and a move so left can be filed nowhere while no row has the id
  (`OutboxRefs.LateRowIsLeftBehind`, `OutboxRefs.CutOffMoveIsNeverFiled`); and a nested create that records
  its own id writes back the reference its claim was taken with (`OutboxRefs.RecordingRestoresAReference`).
  Which rows name it is `OutboxRefs.NamedUntilWalked`.
- A failed bulk move can report a chunk as rolled back that was not, and delete another intent in its
  place, because row ids are reused (`OutboxEnqueue.ReportCanMislead`; the condition is
  `OutboxEnqueue.ReportIsExactIff`, and while an undoable move's hold runs
  `OutboxEnqueue.HeldChunksRollBack` rules it out). The comment above `EnqueueMoveMessagesBulk` promises more.
- An Undo of a row id kept past its intent's end deletes whatever queued row has the id by then, another
  account's included (`OutboxTheorems.UndoReachesAnotherAccount`; the condition is
  `OutboxTheorems.UndoOfAKeptId`).
- A page that stopped partway and is asked for again leaves behind a record that was created and
  destroyed meanwhile, if the server says nothing of it, as section 5.2 of RFC 8620 lets it
  (`DeltaSync.SilenceLeavesAGhost`; the condition is `DeltaSync.PageArrivesAt`). The comment above
  `SyncKind` calls the retried page redundant.
- After a mailbox is deleted the stored roles can be stale: an heir to its role is not promoted until
  the next upsert that resolves the account (`MailStore.AnHeirIsNotPromoted`, and by the store's own writers
  `MailWrites.LoseTheHolder`; the condition is `MailStore.RolesAfterADelete`).

## Model

| member | source | states |
|---|---|---|
| `Backoff.DelayIsCappedDoubling` | internal/outbox/dispatch.go:1107-1116 | At every attempt count the wrapping int64 shift and its two guards give min(2^attempt, 30) seconds: overflow never shortens the wait |
| `Backoff.ReopenBound` | internal/sync/push.go:493-502 | The doubling loop is min(min * 2^attempt, max), and no step of it leaves int64 |
| `Backoff.Reconnect.Bound` | jmap/eventsource.go:356-366 | The bound is min(250 ms * 2^n, 30 s) for n drops in a row, a connection that lasted 30 s starting the count over |
| `Backoff.ScheduleClimbs` | internal/sync/push.go:490-502 | Both doubling schedules never shorten and never pass their cap |
| `OutboxSteps.StepKeeps` | internal/outbox/dispatch.go:171-297 | Every event of the protocol, crashes and other clients included, keeps the outbox invariant |
| `OutboxTheorems.IntentsAreConserved` | internal/outbox/store.go:115-200 | In every reachable state each intent ever enqueued is either one row of its own or has exactly one fate (annihilated, delivered, failed), and never both |
| `OutboxTheorems.FatesAreFinal` | internal/outbox/undo.go:22-42 | A fate never changes on any continuation, so nothing is both caught by Undo and reported delivered |
| `OutboxTheorems.DispatchingIsEmptyBetweenPasses` | internal/outbox/dispatch.go:267-297 | Between passes no row of the account is dispatching, unless a finalize failed together with its recovery since the last startup |
| `OutboxTheorems.StartupSweepsEverything` | internal/outbox/reclaim.go:47-63 | A startup leaves every row of every account queued and loses none |
| `OutboxTheorems.CreatesNameOneMailbox` | internal/outbox/dispatch.go:804-843 | A create that holds a server id, or left the queue as delivered, is bound to the only server mailbox of its name under the parent its call used, until somebody renames, moves or deletes that mailbox |
| `OutboxTheorems.RootCreatesConverge` | internal/outbox/dispatch.go:884-897 | Two delivered root creates of one name end on the same mailbox, however often either was replayed |
| `OutboxTheorems.NobodyWaitsForADeliveredCreate` | internal/outbox/dispatch.go:955-990 | Once a create is delivered no row enqueued before its walk began still waits for it, but for creates that already hold a mailbox of their own |
| `OutboxRefs.NamedUntilWalked` | internal/outbox/dispatch.go:955-990 | In every state an intent that named a queued create names it still exactly when no page of that create's walks has examined its row since the reference was last written there |
| `OutboxRefs.LateRowIsLeftBehind` | internal/outbox/dispatch.go:983-988 | A run in which a move enqueued after the walk's last page is left naming a create that is delivered and gone |
| `OutboxRefs.CutOffMoveIsNeverFiled` | internal/outbox/dispatch.go:1059-1065 | A move whose reference names a row that is gone can be filed nowhere, in any pass that claims it |
| `OutboxRefs.RecordingRestoresAReference` | internal/outbox/dispatch.go:828-835 | A run in which a nested create records its id and with it the reference its parent's walk had struck off |
| `OutboxTheorems.ReferencesAreCapturedIff` | internal/outbox/store.go:24-33 | Although row ids are reused, a reference that named a queued create at enqueue names that very create as long as any row has the id; a reference is captured by another create exactly when it named none and that create was born above its row |
| `OutboxRefs.CapturedMove` | internal/outbox/enqueue.go:126-144 | A run in which a move into a folder whose create has left the table is captured by a later create |
| `OutboxRefs.CapturedMoveIsFiledThoughGivenUp` | internal/outbox/dispatch.go:209-237 | Claimed together, the move is given up at its own turn, and then its messages are filed into the later create's mailbox and it is delivered all the same |
| `OutboxTheorems.DeliveredMovesFiledWhereTheyShould` | internal/outbox/dispatch.go:1053-1081 | A delivered move filed every message, under the server id its row had when the pass claimed it, into one mailbox: into a mailbox of the store, the one whose row it names; into a queued create's, one that create asked for |
| `OutboxTheorems.FilingIsExact` | internal/outbox/dispatch.go:473-483 | Filing a move puts exactly its messages, under their rows' server ids, into the one mailbox, and changes nothing else on the server and no row |
| `OutboxTheorems.DeliveredChangesWereMade` | internal/outbox/dispatch.go:1026-1044 | A delivered rename gave that name to the mailbox whose row it names, and a delivered delete left no mailbox of that row's server id, then or ever since |
| `OutboxTheorems.NestedCreateLandsUnderItsParentIff` | internal/outbox/dispatch.go:812-817 | A nested create names a mailbox its parent asked for exactly when its claim or this pass holds the parent's id, and the root otherwise |
| `OutboxTheorems.NestedCreateAtRoot` | internal/outbox/dispatch.go:812-817 | A run in which the parent is throttled and the nested create lands at the root |
| `OutboxTheorems.CreateLandsUnderItsStoredParent` | internal/outbox/dispatch.go:708-731 | A create under a mailbox of the store asks for its name under exactly the server id that mailbox's row had when the pass claimed it |
| `OutboxTheorems.RowIdsAreReused` | internal/store/migrations/0001_initial.sql:221-237 | A run in which two intents have one row id, the key being declared without AUTOINCREMENT |
| `OutboxTheorems.UndoOfAKeptId` | internal/outbox/undo.go:22-42 | Exactly when an Undo of a kept id catches the intent it was kept for, and exactly when it deletes a row of anything else, whoever owns it |
| `OutboxTheorems.UndoReachesAnotherAccount` | internal/outbox/store.go:190-200 | A run in which the kept id has come to another account's queued row, which the Undo deletes |
| `OutboxClaims.ClaimReads` | internal/outbox/dispatch.go:702-787 | A claim is failed in advance exactly when a store row its payload needs has no server id; otherwise it holds, for each message, destination, parent, renamed or deleted mailbox the payload names, the server id of that very row; and it copies the row's payload, attempts and class |
| `OutboxClaims.StepKeepsReads` | internal/outbox/dispatch.go:702-787 | Every event keeps it: what a pass acts on, and what history records of a delivered intent, are still the ids of the rows the intent names |
| `OutboxRetries.AttemptsCountRetries` | internal/outbox/store.go:154-160 | Over any run from an empty table a row's attempts are the number of times its intent was put back for another attempt |
| `OutboxRetries.KthRetryWaits` | internal/outbox/dispatch.go:1107-1116 | The k-th retry of an intent in a run leaves it queued with k attempts, waiting min(2^(k-1), 30) seconds from the pass's time |
| `OutboxWalk.RewriteChangesTheReferenceOnly` | internal/outbox/dispatch.go:995-1024 | A rewrite happens exactly for a payload that names the create, sets the server id, and keeps every other field |
| `OutboxWalk.PatchedRowFacts` | internal/outbox/dispatch.go:964-980 | A patched row keeps owner, state and schedule; other accounts' rows, the create's own and rows naming no such create are untouched |
| `OutboxWalk.WalkIsOnePatch` | internal/outbox/dispatch.go:955-990 | A walk a page at a time is one patch of all the rows its pages hold |
| `OutboxWalk.RerunIsOneCleanWalk` | internal/outbox/dispatch.go:948-954 | A walk that failed after any page and ran again, its pages cut anyhow, ends as one clean walk |
| `OutboxWorld.ApplyActions` | internal/outbox/dispatch.go:267-278 | The actions on every claimed row, a second one for a row dispatched twice among them, make exactly the machine's finalize |
| `OutboxWorld.RevertActions` | internal/outbox/dispatch.go:280-290 | The recovery replays a retry with its backoff and class, a second action after the first, and puts every other claimed row back |
| `OutboxWorld.TakeWithinBudget` | internal/outbox/dispatch.go:636-652 | The claim takes the longest run of eligible rows within the message budget, and the first of them at any cost |
| `OutboxWorld.CostIsQueries` | internal/outbox/dispatch.go:685-690 | What rows cost a claim is one query for each message their moves name, and one for each row that moves none |
| `OutboxWorld.RewriteEach` | internal/outbox/dispatch.go:965-980 | The loop over one page is the machine's page patch |
| `OutboxWorld.SweepEach` | internal/outbox/store.go:139-149 | The startup statement queues every dispatching row, whoever owns it, changes no other column of any row, and counts the rows it moved |
| `OutboxWorld.World.HasEligibleIntents` | internal/store/read.go:157-173 | Yes exactly when some row of the account is queued with a next attempt no later than now; it writes nothing |
| `OutboxWorld.World.Claim` | internal/outbox/dispatch.go:629-655 | One transaction or none. It takes rows of the account that are queued and due, in id order, passes over none below one it takes, keeps within both budgets and stops only at them; the rows taken go to dispatching and nothing else of any row changes |
| `OutboxWorld.World.ClaimEach` | internal/outbox/dispatch.go:637-651 | The loop moves exactly the rows taken to dispatching; each claim copies its row, and holds the server ids of the rows its payload names or is failed in advance |
| `OutboxWorld.World.PersistPayload` | internal/outbox/dispatch.go:1087-1091 | The learned id reaches the create's own row, in the payload it was claimed with, and nothing else of the row changes; or nothing changes |
| `OutboxWorld.World.ResolveDependentRefs` | internal/outbox/dispatch.go:955-990 | The walk ends, and if no page failed it has seen the empty page that finishes it; nothing else of the pass moves |
| `OutboxWorld.World.WalkOnePage` | internal/outbox/dispatch.go:957-989 | Each page is one step that leaves fewer rows ahead of the cursor, or the walk's end |
| `OutboxWorld.World.Finalize` | internal/outbox/dispatch.go:267-297 | Finalize, or its recovery, or the stranding when both fail, and which of them by the transactions that succeeded |
| `OutboxWorld.World.ReclaimOrphaned` | internal/outbox/reclaim.go:47-63 | One sweep before any pass: every row is queued and otherwise as it was, nothing is stranded, and the count is of the rows that were dispatching |
| `OutboxDispatch.PlanBatches` | internal/outbox/dispatch.go:345-378 | Every group belongs to a claimed create whose mailbox is still to be made, holds in id order claimed moves into that mailbox and nothing else, and fits the wire limit with the create; a claimed move into such a mailbox stays out only when it would not fit |
| `OutboxDispatch.RiderIsTakenOnceIff` | internal/outbox/dispatch.go:202-211 | A move in a batch is passed over at its own turn exactly when it comes after its create; one that comes before is dispatched twice |
| `OutboxDispatch.CarriedTwiceIff` | internal/outbox/dispatch.go:202-237 | Over a whole pass, a claimed row is dispatched a second time exactly when it rode in the batch of a create the pass dispatched although its reference named no queued create when it was enqueued |
| `OutboxDispatch.MoveOutcome` | internal/outbox/dispatch.go:488-498 | A move is delivered exactly when none of its messages was refused, and otherwise fails with its first refusal's class |
| `OutboxDispatch.Dispatcher.AdoptMailbox` | internal/outbox/dispatch.go:884-912 | Exactly one match is adopted; none or several is final; a failed lookup is final when it says not found and a retry of its class otherwise |
| `OutboxDispatch.Dispatcher.DispatchCreateMailbox` | internal/outbox/dispatch.go:804-843 | Which decision each sequence of answers leads to: a replay only walks, any other create makes or adopts, records, walks; delivered only after the whole walk, with the id noted |
| `OutboxDispatch.Dispatcher.RequestBatch` | internal/outbox/dispatch.go:397-446 | The batch's requests: a refusal for an existing mailbox is adopted and the moves made again within the wire limit; any other failure is one decision for all |
| `OutboxDispatch.Dispatcher.DispatchBatch` | internal/outbox/dispatch.go:387-467 | One outcome each for the create and its moves, in order; a failed record or walk fails them all alike, otherwise each move stands on its own messages |
| `OutboxDispatch.Dispatcher.DispatchMoveMessages` | internal/outbox/dispatch.go:1053-1081 | An unresolved destination, known neither to the claim nor to the pass, is final and calls nothing; otherwise one request decides the move |
| `OutboxDispatch.Dispatcher.DispatchChange` | internal/outbox/dispatch.go:1026-1044 | A rename or delete is delivered exactly when the server acknowledged it, and then the server shows the new name, or no mailbox of that id |
| `OutboxDispatch.Dispatcher.DispatchOne` | internal/outbox/dispatch.go:313-334 | Each kind's own script; an unknown kind is final without a call |
| `OutboxDispatch.Dispatcher.DispatchTurn` | internal/outbox/dispatch.go:218-226 | A row whose claim already failed calls nothing and is final; the rest go as a batch or alone |
| `OutboxDispatch.Dispatcher.Conclude` | internal/outbox/dispatch.go:203-236 | Each outcome is decided, actioned and reported, a row's second outcome beside its first, and a dead connection is noticed exactly when one of them is |
| `OutboxDispatch.Dispatcher.RunTurns` | internal/outbox/dispatch.go:209-237 | After the loop every claimed row is decided, exactly the moves carried ahead of their turn a second time, and nothing is dispatched after the turn that found the connection dead; each turn's outcomes are those its own calls' answers lead to, given the ids earlier turns resolved |
| `OutboxDispatch.Dispatcher.DispatchOnce` | internal/outbox/dispatch.go:171-243 | A pass claims the oldest due rows within budget, decides each by the answers of its own turn's calls, reports exactly what it decided, and applies it in one step: the calls it made are the probe, the claim, its turns' and the finalize, in order. It writes nothing when nothing is due or a read or the claim fails; when its finalize fails it reports nothing, and the decided rows are recovered or stranded |
| `OutboxDispatch.WaitingIsNotClaimed` | internal/outbox/store.go:38-50 | A row that waits, for its hold or its backoff, until after the pass's time is not among the rows the pass claims |
| `OutboxDispatch.DeliveredForGood` | internal/outbox/dispatch.go:228-236 | A delivered report is the end of its intent: no fate before, Delivered after, row gone; for a row that had been given up before a batch carried it the fate is Failed |
| `OutboxDispatch.GivenUpForGood` | internal/outbox/dispatch.go:551-574 | A failure reported as final has its row gone and its intent failed |
| `OutboxDispatch.RetryingIsQueued` | internal/outbox/dispatch.go:551-574 | A failure reported as retrying is a queued row again, one attempt on, behind min(2^attempts before, 30) seconds, with that class and detail and every other column as it was; unless it is the second outcome of a row given up before, which is gone |
| `OutboxDispatch.RetriedRow` | internal/outbox/store.go:154-160 | A retried row is queued, one attempt on, behind min(2^attempts, 30) seconds, its class and detail recorded and nothing else of it changed |
| `OutboxDispatch.FinalizeLeavesTheRest` | internal/outbox/dispatch.go:267-278 | A finalize writes no row but those its pass claimed, and ends no other intent |
| `OutboxDispatch.UnreportedIsUntouched` | internal/outbox/dispatch.go:158-163 | A claimed row the report does not name was never attempted and is queued with every other column as it was, and that happens only when a dispatch of the pass lost the connection |
| `OutboxDispatch.StopsWhereTheConnectionIsLost` | internal/outbox/dispatch.go:209-237 | A pass stops short of its last row only when a dispatch failed for want of a connection, and then right there: no turn but the last that dispatched lost it |
| `OutboxDispatch.UndonePassLosesNothing` | internal/outbox/dispatch.go:250-297 | A pass whose finalize failed ends no intent and loses no row: each claimed row is queued, behind its backoff if it was due a retry, or left in dispatching when the recovery failed too |
| `OutboxEnqueue.MoveChunkSize` | internal/outbox/enqueue.go:260-272 | A chunk's size is one of the two budgets, the store's and one request's, bounded by both and never zero; a reported limit within the store's budget is spent in full |
| `OutboxEnqueue.Chunks` | internal/outbox/enqueue.go:274-282 | The chunks concatenate to the input in order, none empty or oversized, all but the last full |
| `OutboxEnqueue.EscapedIds` | internal/outbox/enqueue.go:232-244 | The loop is the order-keeping difference of the two lists |
| `OutboxEnqueue.EscapedHolds` | internal/outbox/enqueue.go:229-231 | An id escapes exactly when it was committed and not annihilated |
| `OutboxEnqueue.Desk.Undo` | internal/outbox/undo.go:22-42 | In one transaction, against any interleaving with the dispatcher, exactly the rows among the ids that are queued go, every other row stays as it is, and each is reported once; or nothing happens |
| `OutboxEnqueue.Desk.CompensateFailedChunk` | internal/outbox/enqueue.go:212-227 | Reports the committed ids the rollback did not delete, or all of them when the rollback failed |
| `OutboxEnqueue.Desk.EnqueueMoveMessagesBulk` | internal/outbox/enqueue.go:175-200 | On success every chunk of the input, none above what the backend said it takes, is an intent of its own under the id returned for it, remembering where each of its messages was; on failure the committed ones were rolled back but for those reported, and none escapes while an undoable move's hold runs |
| `OutboxEnqueue.ReportIsExactIff` | internal/outbox/enqueue.go:169-174 | The report about a chunk is right exactly when it is not the case that its intent was already over and some queued row had come to its id |
| `OutboxEnqueue.ReportCanMislead` | internal/outbox/enqueue.go:202-211 | A run in which the failing case happens |
| `OutboxEnqueue.HeldChunksRollBack` | internal/outbox/enqueue.go:202-211 | As long as no claim has reached the hold of an undoable move and no other Undo names its rows, the rollback catches every chunk and reports none |
| `Flags.EncodeFlags` | internal/store/flags.go:45-56 | Bit 1 is set exactly for $seen, 2 for $answered, 4 for $flagged, 8 for $draft, 16 for $forwarded, and the overflow holds exactly the other keywords |
| `Flags.DecodeFlags` | internal/store/flags.go:58-67 | The overflow, and the keyword of every bit that is set, and nothing else |
| `Flags.DecodeUndoesEncode` | internal/store/flags.go:5-10 | Decoding what was encoded gives back exactly the keywords that went in |
| `Flags.StoreFlags` | internal/sync/apply.go:16-25 | The store's bits name exactly the keywords the backend's bits name: the two number answered and flagged the other way round |
| `Roles.ResolveMailboxRoles` | internal/store/mailbox_role.go:187-216 | A mailbox is given the role it classifies to exactly when every contender comes after it: a guessed role is held only where no candidate declares it, among equals the least id holds it, no role has two holders, and every claimed role has one |
| `Roles.OrderIsIrrelevant` | internal/store/mailbox_role.go:177-186 | Two listings of the same mailboxes resolve alike |
| `Roles.EveryClaimedRoleIsHeld` | internal/store/mailbox_role.go:177-216 | Each claimed role has a holder among its claimants |
| `MailStore.AssociationIsDetermined` | internal/store/message_write.go:138-183 | A message and a mailbox are associated, with that received time and unread bit, exactly when the message's last record names the mailbox's server id and the mailbox is there |
| `MailStore.OrderDoesNotMatter` | internal/store/mailbox_write.go:178-185 | Upserting the same records in any other order gives the same associations |
| `MailStore.RolesAfterADelete` | internal/store/mailbox_write.go:131-143 | After a delete the stored roles are still fresh exactly when the mailbox held none or nobody else classifies to its role |
| `MailStore.AnHeirIsNotPromoted` | internal/store/mailbox_write.go:131-143 | A store with fresh roles in which a delete of the holder leaves the role with nobody |
| `MailWrites.LoseTheHolder` | internal/store/mailbox_write.go:131-143 | Two upserts and a delete that lead to stale roles |
| `MailWrites.FreshThroughARefresh` | internal/store/mailbox_write.go:71-76 | Skipping the resolution on a count refresh leaves fresh roles fresh |
| `MailWrites.Store.SyncMessageMailboxes` | internal/store/message_write.go:145-183 | The message's rows become exactly those its list names, with its time and unread bit; every other row is as it was |
| `MailWrites.Store.UpsertMessage` | internal/store/message_write.go:46-79 | The row under that server id holds the record, no other row changes, and the membership table agrees with every message |
| `MailWrites.Store.DeleteMessage` | internal/store/message_write.go:83-86 | Exactly that row goes, with its memberships |
| `MailWrites.Store.DeleteMailbox` | internal/store/mailbox_write.go:133-136 | Exactly that row goes, with its memberships, and each role still has at most one holder, which classifies to it |
| `MailWrites.Store.RepairMailboxAssociations` | internal/store/mailbox_write.go:186-235 | Closes exactly the gap an inserted mailbox opens: afterwards the membership table agrees with every message |
| `MailWrites.Store.ResolveAccountMailboxRoles` | internal/store/mailbox_write.go:86-129 | The account's stored roles are those a resolution would give now, and nothing else of any row changes |
| `MailWrites.Store.UpsertMailbox` | internal/store/mailbox_write.go:36-79 | Keeps membership in step and every role singly held; fresh roles stay fresh in this and every other account |
| `RecordWrites.UpsertRecord` | internal/sync/apply.go:78-92 | A payload of the page's kind becomes its row, its flags crossed by keyword and its unread bit agreeing; one of the other kind is an error that writes nothing; neither the other kind nor another account is disturbed |
| `RecordWrites.DestroyRecord` | internal/sync/apply.go:94-103 | The kind's row under that server id goes, and nothing of the other kind or another account |
| `RecordWrites.UpsertAll` | internal/sync/bulk.go:59-74 | One chunk is one transaction: all of its records are in the store afterwards, or none when one is of the wrong kind |
| `DeltaSync.PageIsHarmless` | internal/sync/sync.go:195-202 | A page written in part leaves the replica faithful to the watermark it already had |
| `DeltaSync.PageArrivesAt` | internal/sync/apply.go:49-68 | Record by record, a page applied whole reaches the page's state exactly when it is not a record created and destroyed meanwhile that the page left out and the replica holds |
| `DeltaSync.HeldIsNotFleeting` | internal/sync/sync.go:190-202 | A row no unfinished page left cannot be such a record |
| `DeltaSync.PageArrives` | internal/sync/sync.go:190-238 | A retried page that still mentions what an unfinished attempt wrote brings the replica to its state |
| `DeltaSync.SilenceLeavesAGhost` | internal/sync/sync.go:195-202 | A run in which a page stopped, retried and silent about a vanished record leaves that record for good |
| `DeltaSync.FaithfulNow` | internal/sync/sync.go:190-194 | A replica faithful to the server's present state is that state |
| `DeltaSync.Worker.UpsertChunked` | internal/sync/bulk.go:59-74 | In chunks, each a transaction: a failure leaves the chunks before it written and the replica faithful |
| `DeltaSync.Worker.DestroyChunked` | internal/sync/bulk.go:59-74 | The same for destroys |
| `DeltaSync.Worker.ApplyChangeSet` | internal/sync/apply.go:49-68 | Created, updated, destroyed in that order into the store; applied whole or stopped at a chunk, the replica stays faithful and the store shows it |
| `DeltaSync.Worker.SyncPage` | internal/sync/sync.go:209-237 | The watermark moves only to the token of a page all of whose records are written; a page offering more under the token it was asked for with ends the cycle before anything is |
| `DeltaSync.Worker.SyncKind` | internal/sync/sync.go:203-238 | Whatever stops a cycle, the replica is faithful to its watermark and the store holds the replica, with nothing of the other kind or another account disturbed; a completed cycle over a server that stood still and kept its promise in every reply, or has stood still since, is the server's state |
| `MailSync.AssociationsAreTheReplicas` | internal/sync/apply.go:49-68 | In a store that holds both replicas a message is associated with a mailbox, with that received time and unread bit, exactly when the message's payload names the mailbox and the mailbox is there |
| `MailSync.RowsAreTheReplicas` | internal/sync/apply.go:110-139 | Each record has its one row, holding what its payload says, and there is no other row under a server id |
| `MailSync.Flush` | internal/sync/push.go:362-368 | Mailboxes before messages, whatever becomes of the first: the store shows the two replicas, and once both cycles ran to their end over servers that kept their promise and stood still, its rows and its membership table are the servers' |
| `FullResync.StaleIds` | internal/store/message_write.go:111-136 | One page of the scan finds, among the rows it examines, exactly the account's that are no local draft and have no listed id, and a zero cursor exactly when no row follows |
| `FullResync.Worker.DeleteStale` | internal/sync/resync.go:71-96 | The paged scan ends, deletes only the account's rows that are no local draft and have no listed id, and leaves none though rows go between pages |
| `FullResync.Worker.FullResync` | internal/sync/resync.go:27-60 | Following the tokens of a still server from the empty one, the account's server rows become exactly the baseline's, each with its fields, under its last token; a server that has more but repeats the token ends it; however it ends, no other account's row, no local draft and no listed row is lost |
| `QueryChanges.Splice` | jmap/querychanges.go:175-194 | Refuses exactly the unsorted arrays; answers a list exactly when it is the old one without the removed ids, in order, with every item at its row; otherwise names the first item past the end; and a server's answer about distinct ids yields the server's new list |
| `QueryChanges.SpliceIsTheMerge` | jmap/querychanges.go:158-174 | For any array of items, sorted or with equal indexes, the insertions yield a given list exactly when that list has, in order, the rows at exactly those indexes of the old list whose id is not removed, and every item at its index moved down by the later items at or above it |
| `QueryChanges.PastTheEndIff` | jmap/querychanges.go:187-192 | The item the splice stops at is the first whose index lies past the rows kept and the items before it |
| `QueryChanges.PlacesAreIndexesIff` | jmap/querychanges.go:175-194 | In a sorted array every item ends right at its own index exactly when no two indexes are equal |
| `QueryChanges.SpliceOfDistinctIds` | jmap/querychanges.go:158-174 | A list that holds every old id not removed, two of them always in their old order, and any other id at the row an item names, is what Splice gives of the old list |
| `Patches.UnescapeUndoesEscape` | jmap/resolve.go:75-80 | Unescaping an escaped segment gives it back |
| `Patches.PointersDecode` | jmap/patch.go:79-87 | A pointer built from segments splits and unescapes to those segments |
| `Patches.Pointer` | jmap/patch.go:79-85 | The pointer it builds decodes to the segments it was given |
| `Patches.Validate` | jmap/patch.go:55-72 | Accepts exactly the pointers with no empty segment and no overlap, and names the pointer or pair at fault |
| `Patches.OverlapIsAPathPrefix` | jmap/patch.go:64-70 | The string test for overlap is exactly a proper prefix of paths |
| `Patches.AcceptedIffPrefixFree` | jmap/patch.go:36-71 | Of pointers built from distinct paths, those accepted are exactly the named and prefix-free |
| `Patches.ApartCommute` | jmap/patch.go:24-28 | Two entries neither of which reaches through the other may be applied in either order |
| `Patches.AppliedReads` | jmap/patch.go:18-28 | An entry leaves its value, or nothing for null, at its own path, and every path apart from it as it was |
| `Patches.OrderIsIrrelevant` | jmap/patch.go:24-28 | Every order of a patch's entries gives the same record |
| `Patches.AcceptedPatchesAreOrderFree` | jmap/patch.go:55-87 | A patch validate accepts, its keys built by Pointer, has the same effect in every order, over every record that holds each key's parent |
| `EventStream.FirstThenRest` | jmap/eventstream.go:131-155 | Taking lines off the front one at a time is reading the stream byte by byte |
| `EventStream.TokenIsFirstLine` | jmap/eventstream.go:138-155 | A token found in a buffer is the stream's first line, whatever bytes the next reads bring |
| `EventStream.LineScanner.Scan` | jmap/eventstream.go:138-155 | The next line depends on the bytes that remain alone, not on how they are cut into reads |
| `EventStream.EventReader.Next` | jmap/eventstream.go:68-129 | The next event, and the ids remembered, are those assembled from the lines that remain; lines that spell an event, each field with or without a space after its colon, come back as its name, or message, and its texts joined by LF |
| `EventStream.EventReads` | jmap/eventstream.go:68-129 | Lines that spell a name, texts and an id, with comments and other fields among them, read as that name (message if empty), the texts joined by LF, and that id as the resume id from the blank line on |
| `EventStream.MarkIsDropped` | jmap/eventstream.go:78-86 | A byte order mark is dropped from a stream's first line, and from no other |
| `EventStream.WrittenLines` | jmap/eventstream.go:131-155 | Lines written out with any of the three terminators each are read back as those lines |
| `EventStream.ReadAll` | jmap/eventstream.go:57-129 | All events and the last resume id are functions of the stream's bytes |
| `EventStream.ResumeIdWaitsForABlankLine` | jmap/eventstream.go:87-97 | Through lines of which none is blank the resume id stays put |
| `EventStream.DispatchCommitsTheBufferedId` | jmap/eventstream.go:87-97 | A dispatched event commits the id buffered by its blank line |
| `Paging.ForwardIsTheRest` | internal/store/queries.go:40-56 | The forward query keeps exactly the rows that come after the cursor, whether or not its own row is still there; past the zero cursor, all of them |
| `Paging.BackwardIsTheFront` | internal/store/queries.go:58-63 | The backward query keeps exactly the rows that come before its cursor, the nearest first |
| `Paging.PlaceOfARow` | internal/store/read.go:108-113 | A cursor taken from a row of the list stands there: the rows before it end, and those after it begin, right at that row |
| `Paging.ListMailboxForward` | internal/store/read.go:100-106 | The rows right after the cursor, in the list's order |
| `Paging.ListMailboxBackward` | internal/store/read.go:114-121 | The rows immediately before the cursor, in the list's order |
| `Paging.ReverseInPlace` | internal/store/read.go:119 | The array's contents reversed |
| `Paging.ListAll` | internal/store/read.go:97-106 | Following the last row of each page lists every row once, newest first, and ends |
| `Push.PushState.Fail` | internal/sync/push.go:259-272 | A failure is surfaced exactly when none of its class is standing |
| `Push.PushState.Retry` | internal/sync/push.go:386-398 | A refusal is recorded, waits on the attempts before it, and is then counted |
| `Push.PushState.Stopped` | internal/sync/push.go:314-325 | A proved stream's end costs nothing; an unproved one counts an attempt, and the second in a row is a connection failure |
| `Push.PushState.Prove` | internal/sync/push.go:332-340 | The episode is over and the schedule starts from zero |
| `Push.PushState.RunPush` | internal/sync/push.go:193-216 | Over whole runs the attempt count is the refusals and unproved stops since the last proof, each failure is surfaced exactly when it opens an episode or changes its class, and the transport is opened again only after a wait on that count |
| `Push.ProofBetweenSurfacings` | internal/sync/push.go:219-253 | Two surfacings of one class in a row have a proved stream between them |
| `Push.WaitBetweenOpenings` | internal/sync/push.go:193-216 | Two events with no wait between them are a stream's proof and its stop |
| `BaselinePull.TokenRoundTrip` | internal/backend/jmapsource/changes.go:141-156 | A printed token parses back, whatever its query state holds, colons included |
| `BaselinePull.ParsesIff` | internal/backend/jmapsource/changes.go:141-152 | A token parses exactly when it is, after its prefix if it has one, a number alone or before a colon; the number is the position, and all that follows the colon the query state |
| `BaselinePull.Server.BaselineMessages` | internal/backend/jmapsource/changes.go:164-213 | One page continues the query from the token's position, or from the start when the query state moved, and its token says where to go on |
| `BaselinePull.Server.PullAll` | internal/backend/jmapsource/changes.go:158-213 | The pages of a pull concatenate to the whole query result and the pull ends with the collection's state |

## Left out

- OutboxMachine: `undo_group`, `chunk_seq` and `created_at`, which nothing here reads.
- OutboxWorld.World: how long anything takes. Timers, deadlines and jitter are not modelled; a run
  holds finitely many outside steps (`patience`), which is why the reference walk ends.
- OutboxWorld.World.CreateAndFile: a creation id and a message id are kept apart in the answer, where
  the code looks both up in one map of failures.
- OutboxDispatch.Dispatcher.DispatchMoveMessages: a move that goes on its own is not checked against
  the wire limit, in the code or here; its chunk was bounded when it was enqueued.
- OutboxDispatch.Dispatcher.DispatchOnce: payload decoding is total, so the branches for a payload that
  does not decode are not there; a failure's detail text is not followed.
- DeltaSync.Worker.SyncKind: a state reset is answered with `Resync`; the resync itself is
  `FullResync`. Echo suppression is not modelled: nothing calls it yet, so the skip set is empty.
- RecordWrites.UpsertRecord: a payload of neither kind, for which the sealed payload type leaves no room.
- MailSync.Flush: writes to the store by anything but the two cycles, while they run.
- DeltaSync.Worker.Changes: of a baseline pull during which the server moves nothing is claimed: its
  last page's state is the watermark, so what moved before that page is not fetched again.
- FullResync.Worker.FullResync: the server stands still during the pull, its pages come to an end, and no
  other writer adds rows during the scan.
- BaselinePull.ParsesIff: a position with a sign, or past int64, is not modelled; the code prints neither.
- MailStore: the columns nothing here reads are one string, and local drafts without a server id are
  rows the invariants say nothing of.
- MailWrites.Store.DeleteMailbox: deletes by row id, which only the resync makes, are in `FullResync`.
- Roles.ResolveMailboxRoles: the role names and the name heuristic's tables are two functions passed in.
- EventStream.EventReader.Next: the limits on a line's and an event's size, and read errors other than
  the end of the stream.
- Patches.Apply: removing a property and restoring its default are one thing, and no record holds arrays.
- Push.PushState.RunPush: notifications, coalescing and polling, which do not touch the schedule.
- The wildcard tokens of result references, the ping cadence and stall window, address
  formatting, the refetch ring, the file lock and recovery, HTTP, JSON, authentication, the user
  interface and the tools would only add easy members.
