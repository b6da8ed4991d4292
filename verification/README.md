# Rosette: relay, engine, directory and recovery in Dafny

Rosette is an end-to-end encrypted messenger. A content-blind relay stores and forwards messages and
orders group commits; a client engine on each device applies them to an MLS session; a directory keeps
accounts, handles and recovery bundles. This project models those parts and proves what they promise
over whole runs.

| files | what they hold |
|---|---|
| `Base`, `Wire` | shared sequence facts; messages, ids, authentication tags and limits |
| `Limiter`, `RelayRate` | the fixed one-minute windows of the directory and of each relay queue |
| `Relay`, `RelayEffects`, `RelayHistory`, `RelayStorage` | the relay as a transition system, its history, its storage counter |
| `RelayAdmission` | which sends the relay accepts, and what that says of every arrival |
| `RelayDb`, `Gate`, `RelayService` | the SQLite mirror and `open`; proof of work and attestation; the relay object itself |
| `Engine`, `Mail`, `Surfacing` | the client engine as an object and as steps; reading mail for commits; what a user is to be shown |
| `Group`, `GroupInv`, `GroupProof`, `GroupTheorems`, `GroupOrphans` | one relay with any number of members, and what holds in every run of it |
| `Calls` | request and reply routing over one connection, for any interleaving |
| `Safety` | what the safety number is computed from |
| `Handles`, `Lockout`, `Directory`, `DirectoryStore`, `Accounts`, `AccountLockout`, `Tokens` | the directory: names, PIN lockout, tables, requests, and runs of requests |
| `Phrases`, `Recovery`, `Restore` | recovery phrases as text; the recovery bundle over its life; device, directory and new device together |

How the parts fit: where the original changes things in place, a class (`RelayState`, `ChatEngine`,
`Store`, `RateLimiter`, `PendingReplies`, `RecoveryStore`) does so too, and each method is tied to a
function on values; the run theorems are about those functions. Cryptography is ideal and symbolic:
a message id determines its content, a tag its key and content, a derived key its secret and salt.
Clocks and random choices are parameters.

In the composed group any action may come at any time: pushes, saves, acks, sends, commits, their
late or repeated arrival at the relay, lost replies, reconnects, relay restarts and client crashes at
any point between two awaits. An action that is not possible changes nothing, so every sequence of
actions is a run.

Where the code and its comments differ, the model follows the code:

- `proto/src/limits.rs:18` speaks of a rolling minute; the window is fixed. `RelayRate.RollingMinuteFails` shows
  twice the limit accepted within a nanosecond, `RelayRate.RollingExactly` says which sends exceed the documented
  limit, and `QueueRateBound` gives the bound that holds.
- The comment on `erase_user` (`directory/src/store.rs:382-386`) says the nickname is scrubbed; the statement
  keeps nickname and discriminator, and the permanence of handles rests on it.
- `engine/src/chat_engine.rs:424-426` takes the winner of a lost race to be on its way to the loser, and
  `engine/src/chat_engine.rs:415-419` admits a crash window. The model includes the window, and a lost reply with
  it: the winner may then be the loser's own commit. `LostAcceptanceStrands` shows the effect in every run,
  `OrphanIsForever` that it does not heal, `DrainReachesHead` and `DrainFindsWinner` exactly which members are
  affected, and `CarefulRunsConverge` that nothing else causes it.

## Model

| member | source | states |
|---|---|---|
| `GroupTheorems.CommitLogAgreement` | engine/src/chat_engine.rs:389-490 | in every run each member's merged commits, in memory and on disk, are a prefix of the relay's accepted log, as long as its epoch has advanced; members at one epoch have merged the same commits |
| `GroupTheorems.NoBurnedEpoch` | relay/src/state.rs:572-623 | every accepted commit a member has not merged is still unacked in its mailbox, in epoch order and unseen by its disk, and a live connection still has it to deliver |
| `GroupTheorems.ConflictHasWinner` | engine/src/chat_engine.rs:423-437 | a member draining after a conflict always has an accepted commit for its epoch to find |
| `GroupTheorems.DrainFindsWinner` | engine/src/chat_engine.rs:432-436 | in every reachable state, a member draining on its live connection with only group mail has passed the contested epoch once the waiting pushes are read, if and only if the winner is another member's commit |
| `GroupTheorems.DrainStopsAtOwn` | engine/src/chat_engine.rs:460-490 | draining mail arrives where the mail leads, or stops exactly at the member's own unmerged commit |
| `GroupTheorems.DrainReachesHead` | engine/src/chat_engine.rs:423-437 | in every reachable state, reconnecting and draining takes a member to the relay's epoch if and only if none of its own accepted commits is unmerged |
| `GroupTheorems.AppliedAtMostOnce` | engine/src/chat_engine.rs:460-501 | over any crashes, redelivery and duplicates no id is applied twice to a session lineage or shown twice; what was applied has been seen, in memory and on disk, and what was shown is on disk |
| `GroupTheorems.ShownExactly` | engine/src/chat_engine.rs:443-486 | in every run the events shown and then those queued are, in order, exactly the events of the messages the session applied, own commits and those lost to a crash aside: a message as itself, a commit as the epoch it led to |
| `GroupTheorems.NoCrashShowsAll` | engine/src/chat_engine.rs:443-486 | in every run without a crash of the member nothing it applied goes unshown or unqueued |
| `GroupTheorems.LostAtACrash` | engine/src/chat_engine.rs:477-486 | an event is lost only by a crash of its member while it was queued and not yet shown |
| `GroupTheorems.ArrivalsAreShown` | engine/src/chat_engine.rs:460-490 | another member's message or commit that ever arrived is still in the mailbox, shown, queued to be shown, or lost to a crash |
| `GroupTheorems.ComposedGoesOut` | engine/src/chat_engine.rs:351-371 | composing and saving puts one new message of the current epoch in the network's hands, with its own echo on the disk's record first |
| `GroupTheorems.AcceptedReachesEveryone` | relay/src/state.rs:522-625 | in every run a message or commit the relay accepts from the group is the last entry of every member's mailbox |
| `GroupTheorems.DrainAcksAll` | engine/src/chat_engine.rs:467-501 | every push a drain gets through, duplicates and own echoes included, is acked and on the disk's record |
| `GroupTheorems.StopsExactly` | engine/src/chat_engine.rs:470-486 | a push stops the engine if and only if it is new and neither another member's commit for the session's epoch nor another member's message that decrypts; then nothing is applied, queued, saved or acked |
| `Surfacing.ShownAfterCrash` | engine/src/chat_engine.rs:168-202 | losing the queued events and going back to the durable messages leaves exactly what was shown |
| `GroupTheorems.NothingLost` | engine/src/chat_engine.rs:206-222 | nothing is acked before it is on disk, and whatever ever arrived is in the mailbox or on the disk's record |
| `GroupTheorems.RetryBound` | engine/src/chat_engine.rs:389-441 | the conflicts of a running commit call are at most the other members' commits accepted beyond its start, plus one only while it drains against its own commit whose acceptance was lost |
| `GroupTheorems.RetryCanGoOn` | engine/src/chat_engine.rs:389-441 | in every run a waiting call's commit is the pending one, its own, for the session's epoch; a call that lost its round has discarded it and can build the next as soon as the epoch has moved |
| `GroupTheorems.RepliesSettle` | engine/src/chat_engine.rs:411-439 | in every run acceptance merges the call's own commit, which is the log's at that epoch, a conflict leaves the session at its epoch with the commit discarded, and any other rejection ends the call and changes nothing else |
| `GroupTheorems.LostReplyIsAskedAgain` | engine/src/chat_engine.rs:395-410 | in every run a call whose answer is lost, with its connection or without, waits for the same commit as before, and that commit can reach the relay again |
| `GroupTheorems.ReturnsNameTheirCommit` | engine/src/chat_engine.rs:411-422 | every call that has returned names the log position of its own commit, and lost at most as many rounds as other members' commits stand between its start and that position |
| `GroupTheorems.ReturnsAreDistinct` | engine/src/chat_engine.rs:411-422 | no two calls of the group ever return the same epoch |
| `GroupOrphans.CarefulRunsConverge` | engine/src/chat_engine.rs:411-441 | if no acceptance is lost between relay and disk, every drained member reaches the relay's epoch |
| `GroupOrphans.CarefulRetryBound` | engine/src/chat_engine.rs:389-441 | if no acceptance is lost, a call's conflicts are at most the other members' commits accepted beyond its start |
| `GroupOrphans.OrphanIsForever` | engine/src/chat_engine.rs:477-490 | a member with an own accepted commit that neither memory nor disk has merged, and whose acceptance it does not hold, never gets past that epoch in any continuation of the run |
| `GroupOrphans.LostAcceptanceStrands` | engine/src/chat_engine.rs:411-422 | in every run, a crash or lost connection that takes an acceptance before it is on disk leaves the sender at or below that commit's epoch for ever, behind the relay |
| `GroupOrphans.AcceptanceCanBeLost` | engine/src/chat_engine.rs:415-419 | such a loss is possible from every start in which the relay accepts the member's first commit |
| `GroupProof.RunKeeps` | engine/src/chat_engine.rs:351-521 | the group invariant holds after every sequence of actions |
| `GroupProof.ActionKeeps` | relay/src/state.rs:522-625 | every single action, of a member, the relay or the network, keeps the group invariant |
| `GroupInv.ReceiveKeepsPlace` | engine/src/chat_engine.rs:460-490 | reading one push leaves the rest of the connection leading just as far |
| `GroupInv.CommitKeeps` | relay/src/state.rs:572-623 | an accepted commit, fanned out any positive number of times, keeps each member's mail complete up to the new head |
| `GroupInv.AckKeeps` | relay/src/state.rs:627-658 | an ack that takes effect arbitrarily late never removes an unmerged commit |
| `GroupInv.CrashKeeps` | engine/src/chat_engine.rs:168-202 | a crash in any phase, followed by a resume from disk, keeps the member's invariant |
| `Engine.ChatEngine.Resume` | engine/src/chat_engine.rs:168-202 | a resumed engine's memory is exactly what its store holds |
| `Engine.ChatEngine.HandlePush` | engine/src/chat_engine.rs:460-486 | seen ids go to the ack, new ones to the session first with their event queued, failures stop the engine; `ShownExactly` says which event each message becomes |
| `Engine.ChatEngine.Persist` | engine/src/chat_engine.rs:206-222 | session and new seen id reach the disk together, and only then comes the ack, the send or the return |
| `Engine.ChatEngine.TryAck` | engine/src/chat_engine.rs:495-501 | the ack goes out or is dropped, with nothing else changed |
| `Engine.ChatEngine.PrepareMessage` | engine/src/chat_engine.rs:351-363 | the own echo is suppressed and to be saved before the message is sent, a pending commit or not |
| `Engine.ChatEngine.BuildCommit` | engine/src/chat_engine.rs:389-410 | a commit for the current epoch is pending and on its way |
| `Engine.ChatEngine.HandleCommitReply` | engine/src/chat_engine.rs:411-439 | acceptance merges the own commit, a conflict discards it and starts the drain, any other rejection ends the call |
| `Engine.ChatEngine.PumpOne` | engine/src/chat_engine.rs:460-490 | one push is applied, saved and acked in that order, or stops the engine |
| `Engine.ChatEngine.DrainUntilAdvanced` | engine/src/chat_engine.rs:432-436 | the drain loop processes a prefix of the pushes, each fully, until the epoch moves, the engine stops or the pushes end |
| `Engine.Store.Commit` | core/src/storage.rs:63-77 | one transaction replaces the snapshot and adds the ids, duplicates ignored |
| `RelayHistory.BacklogIsHistory` | relay/src/state.rs:432-454 | in every run a mailbox holds exactly the messages accepted for it, direct or by fan-out with roster multiplicity, in order, minus those acked later |
| `RelayHistory.DeliveryStream` | relay/src/state.rs:410-454 | after subscribing to a mailbox once, a connection is handed the backlog of that moment and then every later arrival, in order, once each |
| `RelayHistory.StepBacklog` | relay/src/state.rs:465-658 | each operation changes a backlog by its own arrivals or its own ack and by nothing else |
| `RelayAdmission.MailboxSendAnswer` | relay/src/state.rs:465-512 | a direct send is accepted if and only if it is at most 65,536 bytes, the mailbox exists, the tag is that of its key over this queue and envelope, fewer than a thousand messages wait, the window has room and the bytes fit; each refusal code has its exact condition |
| `RelayAdmission.GroupSendAnswer` | relay/src/state.rs:522-570 | a group send is accepted if and only if size and tag are right, the queue is a group inbox, a commit names its epoch, the whole fan-out fits the storage and the window has room; a plain message is not held to the epoch; each refusal code has its exact condition |
| `RelayAdmission.RefusalsChangeNothing` | relay/src/state.rs:465-570 | a refused send leaves everything as it was, but for the counted window after a rate or storage refusal |
| `RelayAdmission.QueuesAreAsCreated` | relay/src/state.rs:320-398 | in every run a queue exists exactly if it was created, with the key, kind and roster of its creation, and an inbox stands at its first epoch plus the commits accepted |
| `RelayAdmission.ArrivalsAreAuthentic` | relay/src/state.rs:465-570 | in every run each arrival came by a send whose tag is that of the key its mailbox or inbox was created with, and a commit named the inbox's epoch of that moment |
| `RelayEffects.FanOutPending` | relay/src/state.rs:621-623 | fan-out appends one copy per roster occurrence, none for entries that are not mailboxes |
| `RelayEffects.FanOutDelivered` | relay/src/state.rs:432-454 | fan-out hands one copy per roster occurrence to exactly the live subscribers |
| `RelayEffects.SubscribeEffect` | relay/src/state.rs:410-430 | subscribing adds the connection once, hands it each listed backlog, and shows other connections nothing |
| `RelayEffects.ClosedGetsNothing` | relay/src/state.rs:432-454 | no operation hands a closed connection anything, and the next message for a queue drops it from the queue's subscribers |
| `RelayEffects.ClosedForGood` | relay/src/state.rs:410-454 | in every run a connection is handed nothing after it has closed |
| `RelayStorage.StorageConserved` | relay/src/state.rs:460-463 | in every run the counter equals the bytes pending and stays within the bound, and the next ack's subtraction does not saturate |
| `RelayStorage.AckFreesCounted` | relay/src/state.rs:643-657 | an ack frees exactly the bytes of what it removes |
| `RelayStorage.StepKeepsStorage` | relay/src/state.rs:561-567 | every operation, fan-out with duplicate or foreign roster entries included, keeps counter and bound |
| `RelayDb.WriteThrough` | relay/src/state.rs:149-239 | in every run, restarts included, opening the file rebuilds queues, keys, epochs, roster order, each backlog in order and the counter |
| `RelayService.CrashAtAnyPoint` | relay/src/state.rs:499-510 | a crash between any two effects of a step leaves a file that opens as the state before or after it, and as the state after once anything was handed out or the step is done |
| `RelayDb.OpenRestores` | relay/src/state.rs:149-239 | a file that mirrors memory opens as the restarted memory |
| `RelayDb.StepMirrors` | relay/src/state.rs:591-623 | every operation's transaction carries the file along with memory |
| `RelayRate.QueueRateBound` | relay/src/state.rs:59-71 | from its creation on, a queue accepts at most twice the limit in any half-open minute of one process |
| `RelayRate.RollingMinuteFails` | proto/src/limits.rs:18-19 | a mailbox with room accepts a hundred and twenty direct sends within a nanosecond, against the documented sixty per rolling minute |
| `RelayRate.RollingExactly` | relay/src/state.rs:59-71 | in every run of one process the window stops no send that the last minute leaves room for, and lets one beyond sixty pass exactly if the sends since it opened and those of the minute before fill sixty together |
| `RelayRate.SendsFollowWindow` | relay/src/state.rs:465-512 | with room in mailbox and storage, exactly the sends that the window lets pass are accepted |
| `RelayService.RelayState.constructor` | relay/src/state.rs:141-143 | a relay without a file starts empty |
| `RelayService.RelayState.Open` | relay/src/state.rs:149-239 | the reading loops of `open` rebuild what the file describes, with volatile tables empty, and keep memory and file in step |
| `RelayService.RelayState.IssuePowChallenge` | relay/src/state.rs:241-259 | the eviction loop makes room for the new challenge by dropping the oldest |
| `RelayService.RelayState.ConsumeAttestation` | relay/src/state.rs:271-292 | accepts a signed, unexpired, unspent token, pruning expired ones and recording it |
| `RelayService.RelayState.ConsumePow` | relay/src/state.rs:294-308 | a presented challenge is gone whether or not its solution was good |
| `RelayService.RelayState.CreateMailbox` | relay/src/state.rs:320-350 | past both gates the queue is on file before it is in memory; a refusal changes only the gates |
| `RelayService.RelayState.CreateGroupInbox` | relay/src/state.rs:352-398 | as for a mailbox, with the roster kept in order |
| `RelayService.CreationAnswer` | relay/src/state.rs:320-360 | over every run of both gates creation is refused for the token first, then for the solution, and allowed exactly if both are good; a bad token leaves the challenge standing, a bad solution still costs the token and its challenge |
| `RelayService.RelayState.Subscribe` | relay/src/state.rs:410-430 | adds subscriptions without duplicates and drains the backlogs, nothing being written |
| `RelayService.RelayState.PushAndNotify` | relay/src/state.rs:432-454 | stores, counts and pushes one message and drops dead subscribers |
| `RelayService.RelayState.CheckAndBumpRateLimit` | relay/src/state.rs:59-71 | counts the send in the queue's window, resetting one that has run out |
| `RelayService.RelayState.SendToMailbox` | relay/src/state.rs:465-512 | same reply and state as the specification, every rejection included; file written before anything is handed out; `MailboxSendAnswer` says which sends those are |
| `RelayService.RelayState.SendToGroupInbox` | relay/src/state.rs:522-625 | as for a mailbox, with the epoch rule, one transaction for all stored targets, then the fan-out; `GroupSendAnswer` says which sends are accepted |
| `RelayService.RelayState.Ack` | relay/src/state.rs:627-658 | removes every entry of the id from file and memory and frees their bytes |
| `Gate.PowWindow` | relay/src/state.rs:241-259 | the redeemable challenges are exactly the last issued up to the cap minus those presented |
| `Gate.PowBounded` | relay/src/state.rs:241-259 | table and order never exceed the cap |
| `Gate.RedeemedOnce` | relay/src/state.rs:294-308 | a challenge redeemed once is never redeemed again |
| `Gate.SolutionAcceptedExactly` | relay/src/state.rs:294-308 | in every run a solution is accepted if and only if its challenge is among the last 10,000 issued, was not presented since, and its digest has sixteen leading zero bits |
| `Gate.TokenSpentOnce` | relay/src/state.rs:271-292 | each token is accepted at most once, despite the pruning of expired nonces |
| `Gate.TokenAcceptedExactly` | relay/src/state.rs:271-292 | in every run the gate opens if and only if no key is set, or the token is signed under it, unexpired, and its nonce not spent by a token still unexpired |
| `Gate.TableIsLiveTokens` | relay/src/state.rs:271-292 | after every check that reaches the pruning the table is exactly the accepted, unexpired tokens |
| `Gate.OnRecordUntilExpiry` | proto/src/attestation.rs:69-71 | an accepted token stays on record until it has expired |
| `Limiter.RateLimiter.BumpKey` | directory/src/ratelimit.rs:128-143 | the limiter's decision and table are those of one fixed-window step |
| `Limiter.AdmissionBound` | directory/src/ratelimit.rs:128-143 | any half-open minute admits at most twice the largest limit passed for a key |
| `Limiter.AdmittedExactly` | directory/src/ratelimit.rs:128-143 | in every run a call is admitted if and only if fewer calls than its limit were admitted for its key since the key's window opened |
| `Limiter.KeyIsolation` | directory/src/ratelimit.rs:98-143 | calls under other keys and buckets change nothing for a key |
| `Calls.PendingReplies.Insert` | engine/src/relay_client.rs:119-125 | a caller enters its slot, or is refused once the connection is gone |
| `Calls.PendingReplies.Remove` | engine/src/relay_client.rs:91-96 | takes out the slot of that id and no other |
| `Calls.PendingReplies.Close` | engine/src/relay_client.rs:100-105 | no slot is left and none will be accepted |
| `Calls.RepliesAreRouted` | engine/src/relay_client.rs:77-138 | under every interleaving a call that gets a reply gets one sent for the id that it and no other call allocated |
| `Calls.FirstReplyStands` | engine/src/relay_client.rs:91-96 | under every interleaving the reply that came in for a call is the one it keeps and returns, whatever else is sent to its id |
| `Calls.WaitingIsAnswerable` | engine/src/relay_client.rs:116-138 | a call still waiting has its answer in, or the next reply to its id resolves it |
| `Calls.NoCallStuckAfterExit` | engine/src/relay_client.rs:33-37 | once the reader has exited a call at any stage finishes by its own next steps |
| `Safety.HashInput` | core/src/session.rs:265-279 | the loop feeds the hash the sorted keys, each framed by its length |
| `Safety.SafetyInputAgrees` | core/src/session.rs:256-279 | sides that list the same keys in any order hash the same bytes, and with lengths that fit 32 bits only those do |
| `Safety.LongKeysCollide` | core/src/session.rs:274-279 | the bound on lengths is needed: a key of 2^32 bytes would read as two |
| `Lockout.ConstantTimeEq` | directory/src/store.rs:108-112 | the full-length comparison is equality |
| `Lockout.CheckAuth` | directory/src/store.rs:622-701 | the transaction leaves the row and gives the verdict that lock, match, phrase and decade rules demand; `AnswerIsExact` says what those come to over a run |
| `Lockout.AnswerIsExact` | directory/src/store.rs:637-700 | over every run each verdict follows from the times of the wrong PINs since the last reset: locked until the last decade's final wrong PIN plus its one, four or twenty-four hours, else a match for the right proof, else the exact remaining number |
| `Lockout.LockHoldsAsReported` | directory/src/store.rs:637-660 | before the reported end of a lock every PIN is told that end and changes nothing; from it on the right PIN, and no other, matches |
| `Lockout.WrongPinDoesNotLock` | directory/src/store.rs:673-700 | after a wrong PIN that brought no lock the right PIN matches at once |
| `Lockout.GuessesAreSpaced` | directory/src/store.rs:100-106 | however attempts, matches and uploads mix, the wrong PIN that follows k locks since the last reset comes after all k lockouts have been served |
| `Lockout.HoursInClosedForm` | directory/src/store.rs:99-106 | k lockouts last 1, then 5, then 5 + 24(k - 2) hours together |
| `Lockout.GuessBudget` | directory/src/store.rs:637-700 | five hours and d days after a reset at most 20 + 10 d wrong PINs have been compared |
| `Lockout.RemainingIsExact` | directory/src/store.rs:673-700 | among any wrong attempts after a reported remaining number, exactly that many by PIN bring the next lock, each before reporting one fewer, and wrong phrases in between change nothing |
| `AccountLockout.RowIsItsEvents` | directory/src/store.rs:622-701 | over any served requests an account's row is what its own uploads and attempts make of it |
| `AccountLockout.AccountGuessesAreSpaced` | directory/src/api.rs:923-974 | the lockout schedule holds for each account against the whole directory |
| `AccountLockout.RestoreReturnsLastUpload` | directory/src/api.rs:923-974 | in every run a restore is answered with a bundle exactly if its token stands for an account with a backup and the proof holds unlocked, the bundle is the account's last upload, and the token is spent |
| `AccountLockout.RestoreAnswers` | directory/src/api.rs:923-974 | in every run the whole answer to a restore with a good token, remaining number, none for a phrase, and seconds of lock included, follows from the account's last upload and its wrong PINs since the last reset |
| `AccountLockout.StoredIsLastUpload` | directory/src/store.rs:501-535 | in every run an account has a backup exactly if it uploaded a valid one and was not erased since, and it is the last one |
| `Handles.NicknameRule` | directory/src/username.rs:34-42 | accepted nicknames are exactly the 2 to 32 character strings over the allowlist, although length is measured in bytes |
| `Handles.FreeFromIs` | directory/src/username.rs:64-73 | the search finds the least free positive number, and fails only if all are taken |
| `Handles.AssignSlot` | directory/src/store.rs:279-285 | the widening loop computes the assignment |
| `Handles.AssignedUnique` | directory/src/store.rs:279-285 | what a claim must be given leaves no choice of number or width |
| `Handles.AssignIs` | directory/src/store.rs:279-285 | a claim gets the least free number, widening no further than that number needs, and fails if and only if every nine-digit number is taken |
| `Handles.SlotCountIs` | directory/src/username.rs:58-60 | the saturating power is exact at every width in use |
| `Handles.RenderedWidth` | directory/src/username.rs:47-49 | a number that fits its width is written in exactly that many digits |
| `Handles.HandleRoundTrip` | app/composeApp/src/commonMain/kotlin/chat/app/pairing/FindPeopleScreen.kt:159-162 | a handle written at any width is read back as the same nickname and number |
| `DirectoryStore.Store.IsPhoneInCooldown` | directory/src/store.rs:234-244 | true exactly if the phone was erased within the last 24 hours |
| `DirectoryStore.Store.FindUserByPhoneHash` | directory/src/store.rs:198-207 | the one live account of the phone, if there is one |
| `DirectoryStore.Store.FindUserByHandle` | directory/src/store.rs:314-328 | a live holder of the handle, or the assurance that there is none |
| `DirectoryStore.Store.HandleFor` | directory/src/store.rs:355-380 | a handle of exactly the nickname's current width in digits that parses back to the user's own nickname and number |
| `DirectoryStore.Store.Bucket` | directory/src/store.rs:715-738 | every live searchable account of the prefix, once each, and nobody else |
| `DirectoryStore.Store.Search` | directory/src/api.rs:698-746 | an authenticated search of a five-character prefix finds every live opted-in account of the bucket that has a handle, once each, under a handle that parses to its own |
| `DirectoryStore.Store.FindOrCreatePendingUser` | directory/src/store.rs:166-181 | the phone's live account, or a new row with an unused id |
| `DirectoryStore.Store.CreateSession` | directory/src/store.rs:537-553 | an unused token speaks for the live account from now on and every other token as before; a used one changes nothing |
| `DirectoryStore.Store.ClaimUsername` | directory/src/store.rs:253-304 | the claim as specified, or no change at all |
| `DirectoryStore.Store.SetSearchability` | directory/src/store.rs:330-351 | opting in puts the account into the bucket of its hash and no other, opting out takes it out of all, and no other account moves |
| `DirectoryStore.Store.SetPairingBootstrap` | directory/src/store.rs:452-470 | what is published is what the next request gets, once the account can be found |
| `DirectoryStore.Store.ConsumePairingBootstrap` | directory/src/store.rs:479-495 | handed out only for a live account that opted in, and a second request finds nothing |
| `DirectoryStore.Store.EraseUser` | directory/src/store.rs:387-446 | afterwards no session, phone, handle, bucket, bootstrap or backup leads to the account, and its phone is in cooldown |
| `DirectoryStore.Store.UpsertBackup` | directory/src/store.rs:501-535 | the uploaded proofs match at once, whatever was counted or locked before |
| `DirectoryStore.Store.VerifyBackupAuth` | directory/src/store.rs:622-701 | no row, no answer; else the lockout transaction on that row alone |
| `DirectoryStore.Store.RestoreTokenUser` | directory/src/store.rs:592-602 | resolves an unexpired token and drops an expired one |
| `DirectoryStore.Store.VerifyRequest` | directory/src/api.rs:384-417 | cooldown first, then find-or-create, verification and a session |
| `DirectoryStore.Store.AccountRequest` | directory/src/api.rs:430-812 | each account request does its one store operation for the caller and refuses malformed input, a backup of wrong shape included, unchanged |
| `DirectoryStore.Store.RestoreBeginRequest` | directory/src/api.rs:848-895 | only a live account with a backup gets a session, a restore token and its two salts |
| `DirectoryStore.Store.RestoreCompleteRequest` | directory/src/api.rs:923-974 | the bundle for a matching proof, else the remaining number or the seconds of lock; the restore token survives failures and is consumed by success |
| `DirectoryStore.Store.ServeRequest` | directory/src/api.rs:203-216 | every request, authenticated where required, gives the specified reply and tables and keeps their invariant; `AccountRequestsNeedASession` says over runs who is served |
| `Accounts.ServeKeeps` | directory/src/store.rs:387-446 | every request keeps uniqueness, ownership, cooldown and handle invariants, never rewrites a tombstone and never narrows a nickname |
| `Accounts.ErasureIsPermanent` | directory/src/store.rs:387-446 | after an erasure no later run resolves a session, phone, handle, bucket, bootstrap or backup to the account, its row is never written again, and nobody else ever holds its handle |
| `Tokens.TombstonesAreScrubbed` | directory/src/store.rs:387-446 | in every run an account is a tombstone if and only if it asked to be deleted, and its row then holds the handle and that time, but no phone, search hash or verified mark |
| `Accounts.DeleteErasesExactlyTheCaller` | directory/src/api.rs:661-672 | deletion erases the caller, starts the phone's cooldown and changes no other account's access |
| `Accounts.PhonesAreExclusive` | directory/src/api.rs:273-300 | at most one live account per phone, and none while the phone is in its cooldown |
| `Accounts.VerifiedNumberGetsItsAccount` | directory/src/api.rs:384-417 | outside a cooldown verification yields a session for the phone's own live account or for a new one |
| `Tokens.AccountRequestsNeedASession` | directory/src/store.rs:566-578 | in every run an account request is served for the account its token was issued to less than ninety days ago and which was not erased since; any other is answered Unauthorized and changes nothing |
| `Tokens.AccountReplies` | directory/src/api.rs:523-812 | a caller with a standing session is answered Accepted if and only if the search hash has 64 hexadecimal digits, the link is not blank, the backup's salts, hashes and ciphertexts have their sizes; else BadRequest and no change |
| `Tokens.PhoneRefusedExactly` | directory/src/store.rs:234-244 | in every run signup and verification refuse a phone if and only if an account that had it was erased less than a day ago |
| `Tokens.LinkIsHandedOutOnce` | directory/src/store.rs:479-495 | in every run a pairing request is answered with the link its live, opted-in target published last, if none has taken it, and hands it out once |
| `Tokens.BucketsHoldOptIns` | directory/src/store.rs:330-351 | in every run a search bucket holds exactly the live accounts whose last opt-in gave a hash of that prefix |
| `Tokens.RestoreTokensExpire` | directory/src/store.rs:583-606 | in every run a restore token stands for the account it was issued for, for less than six hundred seconds and until it has bought a bundle; after that it is answered Unauthorized |
| `Accounts.ClaimTakesLeastFree` | directory/src/store.rs:253-304 | in every run a claim is refused only for a bad nickname or a full number space, else it takes the least number no row holds |
| `Accounts.FirstClaimIsOne` | directory/src/username.rs:47-53 | the first claim of a nickname is answered with number 01 |
| `Accounts.WidthsOnlyWiden` | directory/src/username.rs:8-12 | a nickname's width never shrinks and all its holders are written at that width |
| `Accounts.SharedHandleResolves` | directory/src/store.rs:314-328 | a handle written at any past width leads to its holder and to nobody else while the holder keeps it |
| `Accounts.HandlesTellHoldersApart` | directory/src/username.rs:51-53 | handles of different holders never read the same, whatever their widths |
| `Phrases.NormalizesTo` | core/src/backup.rs:72-78 | a text normalizes to a phrase exactly if it has the phrase's words in order, in any case |
| `Phrases.RespelledPhrase` | core/src/backup.rs:70-78 | any spacing and capitals of the words give the same phrase |
| `Recovery.RecoveryStore.NewFromBackup` | ffi/src/lib.rs:422-451 | a new device exists exactly if the secret opens the bundle down to its payload and the path is free, with the two failures told apart |
| `Recovery.RecoveryStore.BackupEnroll` | ffi/src/lib.rs:876-903 | key and bundle are stored together, or nothing for a bad PIN |
| `Recovery.RecoveryStore.BackupBundleCurrent` | ffi/src/lib.rs:908-935 | only the blob is rebuilt |
| `Recovery.RecoveryStore.BackupVerifySecret` | ffi/src/lib.rs:942-966 | true exactly if the secret unwraps the stored key |
| `Recovery.RecoveryStore.BackupRewrapPin` | ffi/src/lib.rs:973-1011 | only the PIN wrap, the PIN hash and their salts change |
| `Recovery.RecoveryStaysOpenable` | ffi/src/lib.rs:876-1011 | after any enrollments, refreshes, PIN changes and device moves a secret recovers the key and the latest payload exactly if it is the current PIN or spells the phrase, and exactly then its proof is accepted |
| `Recovery.TypedPhraseUnlocks` | ffi/src/lib.rs:433-441 | the phrase, however spaced and capitalized, always unlocks |
| `Recovery.SupersededPinFails` | ffi/src/lib.rs:973-1011 | after a PIN change the old PIN opens nothing and proves nothing, and the phrase is unaffected |
| `Recovery.HoldsOpens` | ffi/src/lib.rs:175-182 | proof and unwrapping accept the same secrets |
| `Restore.RestoreEndToEnd` | directory/src/api.rs:848-974 | if an account's last upload is its device's current bundle, the owner of the phone is given its salts, and the proof of a secret is answered with that bundle if and only if the secret is the current PIN, unlocked, or spells the phrase; a new device then recovers the key and the latest payload |
| `Restore.BeginAnswers` | directory/src/api.rs:848-895 | in every run the phone's owner gets a restore token and the salts of the account's last upload |
| `Restore.BeginRefused` | directory/src/api.rs:848-895 | in every run a phone without a live account, or whose account has no upload standing, is answered NotFound and changes nothing |

## Left out

- Library internals: OpenMLS, Argon2, the AEAD, Ed25519, HMAC and SHA-256 are ideal symbols; bincode layouts do not appear.
- Transport: TLS, sockets, framing and tokio plumbing; a connection is a channel that delivers in order until it closes.
- The relay's dispatch of messages to operations (`handle`) and the engine's connection-changed events, which decide nothing.
- Pairing before the Welcome arrives: groups start from members that have joined.
- Numbers are unbounded: epochs, sequence numbers, request ids and the attempt counter do not wrap or overflow; SQLite's signed 64-bit range is not modelled.
- A failed write to a database ends the relay process or the engine call, as the code treats it; the model has no failing writes.
- A mailbox depth cap is no invariant: only direct sends test it, and the model tests it there too.
- Proof of work, spent tokens and rate windows are stated within one process, since a restart resets them on purpose.
- Other clients of the relay may do anything to queues of their own and deposit messages that are not the group's; they do not use the group's inbox, ack a member's mail or speak on a member's connection.
- Whether an application message still decrypts after an epoch change is the environment's choice; a failure stops that member.
- Safety.LongKeysCollide: such a key cannot arrive, since MLS limits key lengths far below; it shows that the hypothesis of `SafetyInputAgrees` is needed, not a failure of the code.
- GroupTheorems.DrainFindsWinner: assumes mail of this group only and application messages that decrypt, as the next line.
- GroupTheorems.DrainReachesHead: assumes mail of this group only, since a message of any other origin stops the engine, and application messages that decrypt.
- Events queued and not yet shown are lost in a crash, as in the code: `GroupTheorems.LostAtACrash` says which.
- Request handlers of the directory are atomic; Postgres isolation, vendor calls, request limits and feature switches are not part of the model, nor is a restore token used by two requests at once.
- Accounts.DeleteErasesExactlyTheCaller: says nothing about tokens outside the tables, such as attestation tokens already issued.
- Text: lower-casing covers ASCII letters, blank tests cover ASCII white space, and decimal digits are ASCII; the phrase words and handles the code produces are ASCII.
- Safety.HashInput: the rendering of the digest as groups of five digits is not modelled, so two different inputs may still show the same number.
- Restore.RestoreEndToEnd: takes the digest as collision-free on 32-byte strings and the client's proof bytes as given; how the bytes are computed is not modelled.
- A superseded bundle that someone kept still opens with the PIN of its time; the statements are about the current bundle.
- The Kotlin screens, key stores and the site.
