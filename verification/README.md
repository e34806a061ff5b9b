# fileSyncer server: a verified model

fileSyncer keeps the files of its users on several servers. One of them is the coordinator. Every change, be it a new
user, a session, an upload or a delete, is a transaction: the coordinator numbers it and sends it to the replicas, all
of them run it on a private copy of their state and stage it on disk, they vote, and the coordinator's decision commits
or rolls back. After a stop the state is rebuilt from disk. When the coordinator is gone, the servers elect another one.
Clients are told of changed files through a subscription, and all parties talk in framed messages over TCP.

This project models that server side in Dafny and proves what it guarantees; `dafny verify dfyconfig.toml` checks all
of it. The model follows the code, also where the code does not do what it seems meant to do. In such places there is an
exact condition under which the intended property holds, and a case in which it does not:

- a `CreateUser` that is refused rolls back and then goes on, so its staged folder stays (`Coupling.AbortUndoes`), and
  start-up, which removes `~` folders with a call that fails on a folder with contents, cannot succeed any more
  (`History.StartsAgain`, case: `History.SecondSignUp`); the same happens after a stop inside a sign-up, from the write
  of its password on (`Crash.CreateUserWindow`, which names the stops);
- a password with white space, or a name that ends in `~`, does not survive a restart (`Recovery.CommitRecoverable`,
  cases: `History.TwoWordPassword`, `History.TildeFile`);
- the receive loops ask for the full count at every `recv`, and may read into the next block
  (`Framing.FillsIffAligned`, `Framing.SurvivesAllCuts`, case: `Framing.BrokenByCut`);
- a deleted file is never announced to subscribers (`Feed.ViewTrueUnlessDeleted`, case: `Feed.DeletionUnannounced`);
- the counter of a replica that becomes coordinator is behind its state (`Reigns.PromotedReplicaTid`, case:
  `Progress.ReplicaFallsBehind`), and commits under ids that do not rise pass subscribers by (`Feed.AnnouncedIffBeyond`,
  `Feed.PassedOver`, case: `Feed.LowerIdSilences`);
- the digest is taken over whole buffers, so an update that only adds what the read buffer still holds is skipped
  (`FileUpdates.LostIffContinued`, case: `FileUpdates.ZeroByteLost`);
- neither wait of the commit protocol has a timeout: a lost proposal leaves the coordinator in its wait for good
  (`Losses.LostProposalBlocks`), and a lost result leaves a replica that no later commit can count on
  (`Losses.LostResultBlocks`, case: `Losses.LostResultHappens`), although from every quiet world all live servers can
  end every list of transactions alike (`Progress.EveryListCanFinish`);
- the last tid of a user is that of the first transaction (`History.UserTidIsFirst`), and a logout is filed under the
  empty name (`History.UserTidGiven`);
- logins that are checked at the same time exceed the limit of two sessions (`Logins.TwoSessionsIffOneAtATime`, case:
  `Logins.ThreeSessions`);
- an election gives a single coordinator as long as its timeouts cover the answers of live servers
  (`Bully.SingleCoordinator`); a win is safe exactly when no higher server is alive (`Bully.WinSafeIffHighest`, case:
  `Bully.LateAnswer`), and an announcement is right exactly when its sender is still alive
  (`Bully.AnnouncementRightIffAlive`, case: `Bully.LateVictory`).

## Layout

| file | contents |
|---|---|
| `Text.dfy`, `Digests.dfy`, `Options.dfy` | numbers and words as C++ streams write and read them; what the digest hashes |
| `Disk.dfy` | the directory tree, the primitive operations that change it, and what a stop in the middle leaves |
| `Records.dfy`, `Memory.dfy` | the server state as a value, and the object that holds it, with start-up |
| `Changes.dfy`, `Transactions.dfy` | the five transactions as values with their disk operations, and the transaction object |
| `Coupling.dfy`, `Recovery.dfy`, `Crash.dfy`, `History.dfy` | memory against disk: commit, abort, restart, stop, whole histories |
| `Wire.dfy`, `TwoPhase.dfy`, `Replay.dfy`, `Agreement.dfy`, `Reigns.dfy`, `Progress.dfy`, `Losses.dfy` | the commit protocol of one reign as a step system, its invariant, the results, what it can achieve, and what a loss does to it |
| `Membership.dfy`, `Votes.dfy`, `Manager.dfy`, `Endings.dfy` | who is counted, the vote counter, the transaction manager object, and how its calls end |
| `Feed.dfy`, `ReignFeed.dfy`, `Subscription.dfy` | the change feed over all interleavings, on the coordinator of a reign, and the handler's loop |
| `Bully.dfy`, `Elected.dfy`, `Election.dfy` | the election as a step system with stops, what it can achieve, and the election objects |
| `Framing.dfy`, `Connections.dfy` | frames over a byte stream in pieces, and the send and receive loops |
| `Service.dfy`, `FileUpdates.dfy`, `Requests.dfy`, `Logins.dfy` | login, logout, the hash-checked update, runs of requests, and logins at the same time |

The objects are classes whose methods are proved against functions on values, and the theorems are about those
functions: `Transaction.RunOnce` against `RunChange`, `ServerState.Init` against `Recovered`,
`TransactionManager.WaitEndVoting` against `Outcome`, `Server.Rounds` against `Contend`, `Connection.ReceiveBytes`
against `Fill`.

## Assumptions

- Names of users and files are single path components. That names do not end in `~` and that a file is not called
  `.password` is asked for where a result needs it; `Recovery.CommitRecoverable` shows what happens otherwise.
- The hash function with its conversion to text is a parameter of which nothing is assumed, except in the
  results of `FileUpdates` that say so.
- A section the code runs under a lock is one step. Casting a vote and receiving a result are such sections.
- A rename, a removal and the creation of a directory are atomic on disk; a write may be cut short anywhere. Disk
  operations reach the disk in program order.
- What other threads, peers and the operating system deliver to a method that waits is a parameter, in order of arrival.
  A wait that would never end has the outcome "blocked".
- A reign begins with servers of equal states. Messages of the commit protocol may be delayed, reordered and lost, but
  not duplicated.
- Server ids are natural numbers, since -1 stands for nobody; a server does not list itself among the others.
- Servers that stop do not come back during the elections considered, and the reply timeout covers the questions to and
  the answers from live servers.

## Model

| member | source | states |
|---|---|---|
| Text.ParseShow | src/server/transactions/Transaction.cpp:20-24 | a tid written to the tid file is read back as the same number |
| Text.ShowDigit | src/server/transactions/Transaction.cpp:20-24 | each digit written is that of its power of ten, the highest first, without a zero in front |
| Text.TokenExact | src/server/ServerState.cpp:54-61 | a password read with `>>` comes back as written if and only if it holds no white space |
| Text.TokenIsFirstWord | src/server/ServerState.cpp:54-61 | in general what is read is the first word: it starts behind the leading white space and ends at the next, and is empty only when nothing else is there |
| Disk.FileSystem.Do | src/server/transactions/Transaction.cpp:46-48 | one operation on the directory: the tree becomes the one of `Apply`, and it throws exactly where std::filesystem does; every method on the disk goes through it |
| Digests.StreamInjectiveOnSize | src/common/utils.cpp:30-49 | the bytes that are hashed determine a file of known size, although the last buffer is hashed with stale bytes behind the file's own |
| Digests.StreamBytes | src/common/utils.cpp:30-49 | byte by byte what is hashed: the content, and up to the end of the last buffer the content one buffer earlier, or what the buffer was made with |
| Digests.SameStream | src/common/utils.cpp:38-46 | two contents are hashed alike if and only if the longer one continues the shorter one with the stale bytes of the buffer, for all sizes |
| Digests.PaddingCollides | src/common/utils.cpp:38-46 | a short file and the same file with a zero byte behind it have one digest, whatever the hash function |
| Wire.SameChange | src/server/transactions/TransactionRequestHandler.cpp:25-52 | for all five kinds, what a replica deserializes is the change and tid the coordinator serialized |
| Wire.FieldsByName | src/server/transactions/CreateUserTransaction.cpp:42-47 | every part of a change is in the message field of its name, under the type of its kind, and no other field is set (this and the other four kinds) |
| Memory.ServerState.AddSession | src/server/ServerState.cpp:128-131 | an existing session is not overwritten; nothing else changes |
| Memory.ServerState.RemoveSession | src/server/ServerState.cpp:138-140 | exactly the session goes |
| Memory.ServerState.AddUser | src/server/ServerState.cpp:133-136 | an existing password is not overwritten |
| Memory.ServerState.RemoveFile | src/server/ServerState.cpp:214-222 | the entry goes if it exists; the user's table stays, even empty |
| Memory.ServerState.UpdateFile | src/server/ServerState.cpp:224-234 | replaces an entry that exists, and does nothing otherwise |
| Memory.ServerState.AddFile | src/server/ServerState.cpp:236-242 | adds an entry that does not exist, and keeps one that does |
| Memory.ServerState.GetUserFilesSince | src/server/ServerState.cpp:173-185 | the loop returns every entry with a later tid, each once, and no other |
| Memory.ServerState.GetUserSessions | src/server/ServerState.cpp:244-253 | the loop returns exactly the user's sessions, each once |
| Memory.ServerState.ScanFolder | src/server/ServerState.cpp:37-78 | one user folder, its files in any order: staging files are deleted, the password and the file table are the ones on disk |
| Memory.ServerState.ScanEntry | src/server/ServerState.cpp:29-88 | one entry of the server's directory; throws exactly for a staged folder that is not empty |
| Memory.ServerState.Init | src/server/ServerState.cpp:22-89 | start-up, entries in any order, equals `Recovered` and cleans the disk to `Visible`; it throws if and only if some `~` folder is not empty |
| Transactions.Transaction.constructor | src/server/transactions/Transaction.cpp:9-14 | a fresh object with its own copy of the guarded state |
| Transactions.Transaction.Begin | src/server/transactions/Transaction.cpp:16-25 | the staged tid is the only thing written |
| Transactions.Transaction.Rollback | src/server/transactions/Transaction.cpp:71-88 | undoes with exactly `RollbackOps`, once; a second call, or one before begin, changes nothing |
| Transactions.Transaction.ExecuteCreateUser | src/server/transactions/CreateUserTransaction.cpp:10-32 | accepted: the effect and the staged folder; refused, exactly for an empty name, an empty password or a known user: rolls back and then stages the folder all the same |
| Transactions.Transaction.ExecuteCreateSession | src/server/transactions/CreateSessionTransaction.cpp:8-20 | rolls back if and only if the session exists or the user does not; otherwise the session is added |
| Transactions.Transaction.ExecuteRemoveSession | src/server/transactions/RemoveSessionTransaction.cpp:29-38 | rolls back if and only if there is no such session |
| Transactions.Transaction.ExecuteFileChange | src/server/transactions/FileChangeTransaction.cpp:38-69 | upload: staged bytes and an entry with their digest; delete: entry removed and file renamed away, or rolled back, exactly when it is unknown |
| Transactions.Transaction.ExecuteNewFrontend | src/server/transactions/NewFrontendTransaction.cpp:28-31 | the frontend is appended, and nothing is refused |
| Transactions.Transaction.ExecuteCaught | src/server/transactions/Transaction.cpp:30-35 | whatever `execute` throws is caught and rolled back; the object dies only if that rollback throws |
| Transactions.Transaction.RunOnce | src/server/transactions/Transaction.cpp:27-38 | runs once and ends as `RunChange` says, flag by flag and disk operation by disk operation; never touches the guarded state |
| Transactions.Transaction.Publish | src/server/transactions/Transaction.cpp:45-50 | the tid file is switched and the staged change gets its name, in this order, up to the first operation that throws |
| Transactions.Transaction.Commit | src/server/transactions/Transaction.cpp:40-57 | the guarded state changes here only, to the work copy, after all disk operations; throws exactly when not prepared or when the disk does; does nothing after a rollback |
| Transactions.Transaction.ForceRollback | src/server/transactions/Transaction.cpp:63-69 | rolls back unless committed, not begun, or rolled back already |
| Transactions.Transaction.GetStatus | src/server/transactions/Transaction.cpp:116-130 | each status holds exactly of the flags it stands for; committed and rolled back exclude each other |
| Transactions.Drive | src/server/transactions/Transaction.cpp:27-88 | any sequence of run, commit and force-rollback calls: committed and rolled back are final and exclude each other, and the guarded state is the old one or the work copy of a committed transaction |
| Coupling.RunPrepares | src/server/transactions/Transaction.cpp:27-38 | a prepared run on a coupled disk stages exactly the staged tree, throws nothing, and its work copy is the next state with the digest of the uploaded bytes |
| Coupling.RunFails | src/server/transactions/Transaction.cpp:27-38 | a run that is refused or whose staging throws has rolled back, and the disk is the aborted one |
| Coupling.CommitSurvives | src/server/transactions/Transaction.cpp:40-57 | no operation of a commit throws, and together they turn the staged tree into the committed one |
| Coupling.CommitDisk | src/server/transactions/Transaction.cpp:16-57 | begin, execute and commit together leave the committed tree |
| Coupling.AbortDisk | src/server/transactions/Transaction.cpp:16-88 | begin, execute and rollback leave the aborted tree, wherever the transaction failed |
| Coupling.CommitCoupled | src/server/transactions/FileChangeTransaction.cpp:83-92 | commit keeps users, passwords, file tables, digests, sizes and tid of memory equal to the disk |
| Coupling.AbortCoupled | src/server/transactions/FileChangeTransaction.cpp:94-105 | abort keeps memory and disk coupled |
| Coupling.AbortUndoes | src/server/transactions/CreateUserTransaction.cpp:10-32 | abort restores the whole disk exactly, if and only if it is not a CreateUser refused because the user exists |
| Coupling.RefusedCreateUser | src/server/transactions/CreateUserTransaction.cpp:16-31 | a refused CreateUser leaves its staged folder with a password file |
| Coupling.TidUserAborts | src/server/transactions/CreateUserTransaction.cpp:23-25 | a user called `tid` never gets in: its staged folder collides with the staged tid file |
| Recovery.RecoveryRoundTrip | src/server/ServerState.cpp:22-89 | start-up on a coupled disk gives the same users, files, digests, sizes and tid, per-file tids 0; the passwords too if and only if none holds white space; and it succeeds if and only if no `~` folder is in the way |
| Recovery.RestartCoupled | src/server/ServerState.cpp:22-89 | a restarted server is coupled to its cleaned disk |
| Recovery.CommitRecoverable | src/server/ServerState.cpp:30-52 | a committed change survives a restart if and only if its names do not end in `~`, its file is not `.password`, and its password has no white space |
| Crash.CrashAtomic | src/server/transactions/FileChangeTransaction.cpp:38-105 | after a stop anywhere in a transaction, even inside a write, what start-up reads is all old or all new; no other user or file is touched |
| Crash.CrashRecovers | src/server/ServerState.cpp:22-89 | the recovered tables are those of before or of after the commit, the tid is old, new or 0, and start-up throws only if it would have before (all kinds but CreateUser) |
| Disk.CrashStateIsStop | src/server/transactions/Transaction.cpp:16-57 | the disks a crash can leave are exactly those at a stop, between two operations or some bytes into one |
| Disk.AnyPartRemains | src/server/transactions/CreateUserTransaction.cpp:23-31 | among them any part of any write, behind the operations before it |
| Crash.CreateUserWindow | src/server/ServerState.cpp:31-35 | wherever a sign-up stops, torn writes included, start-up throws if and only if the number of operations begun is 3 to 5 when it commits, 3 or 4 when it rolls back, 5 when it was refused; never for a user called `tid` |
| Crash.CrashedSignUp | src/server/ServerState.cpp:22-35 | the same said of every disk that a crash inside a sign-up can leave |
| History.Finishes | src/server/transactions/Transaction.cpp:16-88 | a finished transaction leaves next state and committed tree, or old state and aborted tree |
| History.HistoryCoupled | src/server/transactions/Transaction.cpp:16-88 | memory and disk are coupled after every history of commits, aborts, and stops followed by start-ups |
| History.UserTidIsFirst | src/server/ServerState.cpp:142-144 | over any finished transactions the tid kept for a user, once there, never changes: it is that of the first, not of the last |
| History.UserTidGiven | src/server/transactions/RemoveSessionTransaction.cpp:29-38 | a new tid is kept for the user of a sign-up or login only, and for the empty name when a session is removed |
| History.HistoryStarts | src/server/ServerState.cpp:22-89 | without refused CreateUsers no staging name is left and start-up works |
| History.StaysBlocked | src/server/transactions/CreateUserTransaction.cpp:16-31 | a refused CreateUser makes start-up impossible, and no finished transaction repairs that |
| History.StartsAgain | src/server/transactions/CreateUserTransaction.cpp:10-32 | after any history of finished transactions the server can start again if and only if no CreateUser met an existing user |
| History.SecondSignUp | src/server/service/ServiceRequestHandler.cpp:133-147 | the shortest history that prevents a restart: one name signed up twice |
| History.TwoWordPassword | src/server/ServerState.cpp:54-61 | a user who signs up with a password of two words cannot log in with it after a restart |
| History.TildeFile | src/server/ServerState.cpp:48-52 | a committed upload of a file called `f~` is lost at the next start-up |
| Replay.RunFaithful | src/server/transactions/TransactionManager.cpp:254-264 | a run on a node whose state is the replay of its log keeps it so, and its vote depends on that state alone |
| Replay.FinishFaithful | src/server/transactions/TransactionManager.cpp:147-155 | commit appends the change to the replay, rollback leaves it, on memory and on the visible disk |
| Agreement.EveryoneCounted | src/server/transactions/TransactionManager.cpp:180-185 | votes equal to the total mean that the coordinator and every counted member said yes |
| Agreement.StepInv | src/server/transactions/TransactionManager.cpp:20-76 | every step of the protocol keeps the invariant, for any number of replicas, with delay, reordering and loss of messages |
| Agreement.RunInv | src/server/transactions/TransactionManager.cpp:20-76 | the invariant holds in every reachable world of a reign |
| Reigns.ReplicatedLog | src/server/transactions/TransactionManager.cpp:20-76 | each replica's log is a prefix of the decided log, a live one lacks at most the last entry, and its state and disk are the replay of its log |
| Reigns.CoordinatorLog | src/server/transactions/TransactionManager.cpp:54-75 | the coordinator lacks exactly an announced commit it has yet to apply |
| Reigns.ReplicasAgree | src/server/transactions/TransactionManager.cpp:234-287 | idle replicas with equally many commits hold the same database |
| Reigns.OutcomesAgree | src/server/transactions/TransactionManager.cpp:220-287 | no two servers end one transaction differently |
| Reigns.CommitNeedsEveryVote | src/server/transactions/TransactionManager.cpp:162-218 | a commit anywhere means that the coordinator and every replica counted for it voted yes |
| Reigns.TidsIncrease | src/server/transactions/TransactionManager.cpp:113-119 | decided tids strictly increase, the next tid was never given out, and counter >= state >= every file on every server |
| Reigns.NextNumbered | src/server/transactions/FileChangeTransaction.cpp:57-67 | a commit under a tid not below the state's leaves no file with a later tid than the state |
| Reigns.PromotedReplicaTid | src/server/transactions/TransactionManager.cpp:9-18 | a replica that becomes coordinator numbers its first transaction beyond its own state if and only if it has committed nothing since start-up |
| Progress.ReplicaFallsBehind | src/server/transactions/TransactionManager.cpp:113-119 | a reachable world in which a replica, promoted now, would give an id its state has seen |
| Progress.EverybodyCanFinish | src/server/transactions/TransactionManager.cpp:20-76 | from a quiet world with any set of live replicas every well-formed change has a run after which coordinator and all live replicas have ended it alike, committed if and only if it is acceptable, with the next or the old coupled state, and the world is quiet again |
| Progress.EveryListCanFinish | src/server/transactions/TransactionManager.cpp:20-76 | and every list of changes, one transaction after the other, has a run after which all of them hold the database of the acceptable ones in their order |
| Losses.LostProposalBlocks | src/server/transactions/TransactionManager.cpp:176-190 | from any quiet world, for any live replica and acceptable change, a run that loses this one proposal, with all others voting yes, from which the coordinator never ends its transaction, in every future and whoever is taken for dead |
| Losses.LostResultHappens | src/server/transactions/TransactionManager.cpp:289-310 | from any quiet world, for any live replica, a run after which all others have committed and this one waits for a lost result with its old state |
| Losses.LostResultBlocks | src/server/transactions/TransactionManager.cpp:331-340 | such a replica keeps its old database in every future, and no later transaction that counts on its vote is ever committed by anybody |
| Losses.DeadStaysOut | src/server/Server.cpp:265-271 | a replica once taken for dead is never live again in the reign, no later transaction counts on its vote, and it is sent neither a later transaction nor its result |
| Membership.Replica.CheckAliveBlocking | src/server/Replica.cpp:8-51 | a server is dead from its first silence on; a wrong answer fails the check but does not declare it dead |
| Membership.CheckAll | src/server/Server.cpp:143-147 | a round of heartbeats takes exactly the silent servers off and brings none back |
| Membership.GetActiveServers | src/server/Server.cpp:265-271 | the loop lists exactly the live servers, in their order |
| Membership.ActiveCount | src/server/Server.cpp:265-271 | as many servers are counted as there are live ids, so the vote waits for distinct voters |
| Votes.TallyCounts | src/server/transactions/TransactionManager.cpp:192-218 | the counter is -1 once a voter said no and otherwise the number of voters who said yes |
| Votes.OutcomeIsUnanimity | src/server/transactions/TransactionManager.cpp:176-190 | the wait returns commit exactly on unanimity, rollback exactly on a no, and otherwise goes on, whatever the order and however many stale votes |
| Votes.OwnVoteCounts | src/server/transactions/TransactionManager.cpp:45-52 | the same with the coordinator's own vote cast before the wait |
| Votes.OrderDoesNotMatter | src/server/transactions/TransactionManager.cpp:176-218 | the same votes in any order, with any stale ones, have one outcome |
| Votes.NoStands | src/server/transactions/TransactionManager.cpp:203-216 | after a no nothing that arrives makes it a commit |
| Votes.AwaitedIsFirst | src/server/transactions/TransactionManager.cpp:331-340 | a result held is returned, and otherwise the first that arrives for the tid, with the value it came with |
| Votes.AwaitedForever | src/server/transactions/TransactionManager.cpp:331-340 | the wait for a result goes on if and only if none is held and none for the tid arrives |
| Manager.TransactionManager.CastVote | src/server/transactions/TransactionManager.cpp:192-218 | a vote for another tid is dropped, a no is final |
| Manager.TransactionManager.WaitEndVoting | src/server/transactions/TransactionManager.cpp:176-190 | the loop returns what `Outcome` says of the arriving votes |
| Manager.TransactionManager.ReceiveResult | src/server/transactions/TransactionManager.cpp:220-232 | only a result for the transaction pointed to is kept |
| Manager.TransactionManager.WaitResult | src/server/transactions/TransactionManager.cpp:331-340 | the loop returns the result held, or the first verdict that arrives for this tid as it was given, and consumes it; it blocks exactly when there is none |
| Manager.TransactionManager.CommitTransaction | src/server/transactions/TransactionManager.cpp:147-150 | commits and frees the manager; an exception leaves it busy |
| Manager.TransactionManager.RollbackTransaction | src/server/transactions/TransactionManager.cpp:152-155 | rolls back at most once and frees the manager |
| Manager.TransactionManager.SetIsCoordinator | src/server/transactions/TransactionManager.cpp:157-160 | a change of role leaves no active transaction; one that was neither committed nor rolled back is rolled back, on disk too |
| Manager.TransactionManager.RunAndVote | src/server/transactions/TransactionManager.cpp:28-47 | the next tid, a fresh vote, the run, and the own vote on top of what arrived early |
| Manager.TransactionManager.DoTransaction | src/server/transactions/TransactionManager.cpp:20-76 | refused exactly when not coordinator or busy; otherwise outcome, announcement, state and disk are those of the run and of the votes, or the call blocks or dies |
| Manager.TransactionManager.ReceiveNewTransaction | src/server/transactions/TransactionManager.cpp:234-287 | refused exactly when coordinator or busy; otherwise votes its prepared flag and ends as the result says |
| Endings.SettlesCoupled | src/server/transactions/TransactionManager.cpp:54-75 | on a coupled server with a well-formed change no call dies: it ends with the outcome, frees the manager, and leaves the next or the old coupled state and disk |
| Endings.ReplicaObeys | src/server/transactions/TransactionManager.cpp:234-287 | on a coupled server a replica that prepared a change ends as the first verdict on its tid says: next state and committed disk on commit, old state and aborted disk on rollback |
| Endings.CoordinatorObeys | src/server/transactions/TransactionManager.cpp:20-76 | a coordinator that prepared a change commits it, in memory and on disk, and announces commit when all voters said yes, and rolls it back and announces rollback when one said no |
| Endings.SettlesAsDecided | src/server/transactions/TransactionManager.cpp:54-75 | a prepared change that settles with an outcome leaves next state and committed disk, or old state and aborted disk |
| Endings.StepsMatch | src/server/transactions/TransactionManager.cpp:147-155 | the run and finish steps of the protocol perform the operations of a whole life and end in work copy or old state |
| Endings.SettlesMatch | src/server/transactions/TransactionManager.cpp:54-75 | a call of the manager that settles with an outcome leaves the state and disk that the run and finish steps of the protocol leave |
| Endings.VotesAlike | src/server/transactions/TransactionRequestHandler.cpp:25-52 | a replica with an equal state votes as the coordinator does on what it received, and prepares the same next state by the same operations |
| Feed.FeedComplete | src/server/service/ServiceRequestHandler.cpp:201-248 | right after a wake-up the notices give the current entry, with the digest of the last upload, of exactly the present files uploaded since subscription |
| Feed.ViewTrueUnlessDeleted | src/server/service/ServiceRequestHandler.cpp:231-244 | the notices describe the present if and only if no noticed file was deleted last: deletions are never announced |
| Feed.DeletionUnannounced | src/server/service/ServiceRequestHandler.cpp:231-244 | in every fresh subscription a file that is uploaded, noticed and deleted stays in the view |
| ReignFeed.ReignRises | src/server/transactions/TransactionManager.cpp:113-119 | on the coordinator of a reached world the decided commits are accepted and rise, wherever the wake-ups fall between them and whenever the subscription began |
| ReignFeed.ReignFeedComplete | src/server/service/ServiceRequestHandler.cpp:201-248 | so in every reign the feed is complete without further assumption |
| Feed.NoVersionTwice | src/server/service/ServiceRequestHandler.cpp:214-247 | a file that is sent again has a later tid |
| Feed.AnnouncedIffBeyond | src/server/service/ServiceRequestHandler.cpp:217-219 | under any ids: from any open subscription, after an upload and any commits that leave the file alone, a look announces it if and only if the session is alive, the last id is beyond the cursor, and the id of the upload was |
| Feed.LowerIdSilences | src/server/service/ServiceRequestHandler.cpp:217-219 | a later commit under a lower id keeps a new upload unannounced |
| Feed.PassedOver | src/server/ServerState.cpp:179-183 | a version committed under a tid the cursor has passed is never announced |
| Subscription.SendAll | src/server/service/ServiceRequestHandler.cpp:231-244 | all notices in order, or those before the connection failed; `Subscription.ReceivedIsView` says what they mean to the client |
| Subscription.WakeUp | src/server/service/ServiceRequestHandler.cpp:214-247 | one turn of the loop: keep waiting, stop on a dead session, or send the batch and move the cursor |
| Subscription.HandleSubscribe | src/server/service/ServiceRequestHandler.cpp:201-248 | the loop sends listings of exactly the batches of the subscription, cut short only by a failed connection; after an unbroken run a client that keeps the digest of each name holds in addition exactly the digests of the view |
| Subscription.ReceivedIsView | src/server/service/ServiceRequestHandler.cpp:231-244 | a client that files each digest under the name it came with holds, after the messages of any batches in any order of their entries, exactly the digests of the view |
| Subscription.ReceivedComplete | src/server/service/ServiceRequestHandler.cpp:201-248 | right after a wake-up such a client holds, for every file uploaded last since the subscription, the digest of that upload under the name of the file, and nothing for a file nobody touched |
| ReignFeed.ReignReceived | src/server/service/ServiceRequestHandler.cpp:201-248 | so it does on the coordinator of every reign, without further assumption |
| Subscription.SilentAfterSession | src/server/service/ServiceRequestHandler.cpp:221-225 | once a subscriber wakes without its session it is closed, and nothing is sent to it in any future |
| Subscription.PlayLooks | src/server/service/ServiceRequestHandler.cpp:214-219 | the subscription of an interleaving is the one of the states it woke in, so the loop inherits the results about interleavings |
| Bully.StepInv | src/server/Election.cpp:8-61 | every step of concurrent elections with stops keeps the invariant: an asked live server's answer is known or under way, and winners were the highest |
| Bully.SingleCoordinator | src/server/Server.cpp:277-284 | no two live servers consider themselves coordinator, for any number of servers and any interleaving, if timeouts cover the answers of live servers |
| Bully.WinnersDescend | src/server/Election.cpp:84-95 | each winner was the highest live server, and winners never get higher |
| Bully.FollowedIsHighest | src/server/admin/AdminRequestHandler.cpp:30-39 | servers that follow live ones all follow the highest live one |
| Bully.HighestUnlessStopped | src/server/Election.cpp:124-129 | while nobody has stopped, everybody follows nobody or the highest server, and every announcement is its |
| Bully.WinSafeIffHighest | src/server/Election.cpp:36-45 | a win at the end of the reply wait is safe from a second coordinator, in every future, if and only if no higher server is alive at that moment |
| Bully.HighestCanWin | src/server/Election.cpp:8-61 | the highest live server can win from wherever it stands in an election, without help or hindrance of the others |
| Elected.EverybodyCanFollow | src/server/Election.cpp:84-95 | when no election is under way among the live servers there is a run without a stop after which all of them follow the highest |
| Elected.LostAnnouncement | src/server/Election.cpp:84-105 | when its announcement gets lost a live server goes on as before, whomever it followed, beside a coordinator it does not know |
| Bully.LateAnswer | src/server/Election.cpp:70-75 | without the timing assumption two servers win beside each other |
| Bully.LateVictory | src/server/admin/AdminRequestHandler.cpp:30-39 | a late announcement leaves a live server following a stopped one |
| Bully.AnnouncementRightIffAlive | src/server/admin/AdminRequestHandler.cpp:35-39 | outside an election an announcement makes its receiver follow the highest live server if and only if the sender is alive on delivery |
| Bully.RememberedRightIffAlive | src/server/Election.cpp:124-129 | inside one the remembered winner is the highest live server if and only if the sender is alive on delivery |
| Bully.WaitEndsRightIffAlive | src/server/Election.cpp:46-60 | a victory wait ends in following the highest live server if and only if the remembered winner is alive then |
| Election.WinsFirstRound | src/server/Election.cpp:21-45 | a server wins its first round if and only if no higher server is configured or none answered |
| Election.ElectionEnds | src/server/Election.cpp:8-61 | how an election with higher servers ends, by the first round that is unanswered or brings a victory: the server wins, or follows the sender of the first announcement whoever answered; otherwise it waits on; whom it asks and tells |
| Election.HighestWins | src/server/Election.cpp:14-26 | the highest configured server wins at once and tells everybody |
| Election.ElectionInRun | src/server/Election.cpp:8-61 | in every run of all servers in which the part of one server is a whole election, that server ends as the election leaves it |
| Election.FollowsRightIffAlive | src/server/Election.cpp:46-60 | in every run from the start an election that ends in following ends at the highest live server if and only if the server that announced itself first is still alive |
| Election.HighestHeard | src/server/Election.cpp:117-122 | after a wait the recorded id is the highest that answered |
| Election.Contender.ReceiveAnswer | src/server/Election.cpp:117-122 | the maximum of the answers is kept |
| Election.Contender.ReceiveCoordinatorMessage | src/server/Election.cpp:124-129 | the first victory is kept |
| Election.Server.SetCoordinator | src/server/Server.cpp:277-282 | a server is coordinator exactly when the coordinator id is its own; an id that is not configured throws after the fields are set |
| Election.Server.IsHighest | src/server/Election.cpp:14-21 | the loop finds out whether a higher server is configured |
| Election.Server.InformElection | src/server/Election.cpp:28-32 | every higher server is asked, and nothing else is sent |
| Election.Server.InformVictory | src/server/Election.cpp:88-90 | every other server is told, and nothing else is sent |
| Election.Server.WinElection | src/server/Election.cpp:84-95 | the server follows itself and announces it |
| Election.Server.AskHigher | src/server/Election.cpp:8-32 | one round as in the step machine |
| Election.Server.Receive | src/server/admin/AdminRequestHandler.cpp:21-57 | what a message does inside and outside an election, up to the election that a question may start; a question of an unknown server throws |
| Election.Server.HandleRequest | src/server/admin/AdminRequestHandler.cpp:8-65 | the whole handler: a question is answered and then starts an election unless one is running; how that ends is `Election.ElectionEnds` |
| Election.Server.AfterReply | src/server/Election.cpp:42-49 | wins exactly when nobody higher answered |
| Election.Server.Rounds | src/server/Election.cpp:8-61 | rounds and retries, with whatever arrives in the waits, equal `Contend`, whose end is `Election.ElectionEnds`; an exception on an unknown winner leaves the election in place |
| Election.Server.StartElection | src/server/Server.cpp:160-176 | one election at a time, and it ends with a coordinator |
| Framing.NumberOfBytes | src/common/MessageComunication.h:33-37 | a number written as little-endian bytes is read back |
| Framing.BytesOfNumber | src/common/MessageComunication.h:40-48 | and every byte pattern is the bytes of the number read from it |
| Framing.ByteAt | src/common/MessageComunication.h:33-37 | each byte is that of its power of 256, the lowest first |
| Framing.FrameLayout | src/common/MessageComunication.h:10-37 | what stands at each place of a frame: mark, size, session id in two's complement, payload |
| Framing.LoadHeader | src/common/MessageComunication.h:33-48 | a written header loads with the same size and session id, negative ones too |
| Framing.FillTakesFront | src/common/Connection.h:188-206 | what the loop returns is the front of the stream |
| Framing.FillsIffAligned | src/common/Connection.h:193 | the loop, which asks for the full count each time, fills its buffer if and only if the pieces end where the buffer ends, before any error |
| Framing.SafeIffNothingFollows | src/server/interfaces/RequestHandler.h:72 | no way of cutting the stream, errors included, overruns the buffer if and only if nothing follows the block or it has at most one byte |
| Framing.FramingRoundTrip | src/common/Connection.h:162-185 | the receiver gets exactly the list of messages sent if and only if every block is filled |
| Framing.MessagesComeThrough | src/server/interfaces/RequestHandler.h:42-61 | any list of messages comes through if no receive is cut short, and in any pieces if only missing bytes were asked for |
| Framing.SurvivesAllCuts | src/common/Connection.h:188-206 | a list of messages survives every fragmentation without errors if and only if it is empty or one message without payload |
| Framing.BrokenByCut | src/common/Connection.h:193 | any other list breaks when the first byte comes alone |
| Connections.Connection.SendMessage | src/common/Connection.h:208-233 | the whole frame goes out in pieces, or a proper part and the connection is given up; a willing peer gets all of it |
| Connections.Connection.ReceiveBytes | src/common/Connection.h:188-206 | the buffer-filling loop equals `Fill`; the end of the stream and an error leave the connection closed or failed; an overrun is reported instead of written |
| Connections.Connection.Receive | src/common/Connection.h:161-185 | header, check of the mark, payload |
| Connections.SealAllSnoc | src/common/MessageComunication.h:105-121 | frames sent one after the other are the stream of the list |
| Service.SessionsKept | src/server/transactions/CreateSessionTransaction.cpp:8-20 | no committed transaction changes or overwrites a session other than the one it removes |
| Service.HistoryRegistered | src/server/transactions/CreateSessionTransaction.cpp:10-18 | in every history each session belongs to a registered user |
| Service.ConcurrentLogins | src/server/service/ServiceRequestHandler.cpp:181-184 | creations of distinct new sessions for one user are all accepted and add up, whatever the limit |
| Logins.LoginLimit | src/server/service/ServiceRequestHandler.cpp:162-184 | with checks, creations and other transactions interleaved in any way and never more than n logins of a user in flight, no user has more than n + 1 sessions |
| Logins.LimitReached | src/server/service/ServiceRequestHandler.cpp:162-184 | and n + 1 sessions are reached, for every n |
| Logins.TwoSessionsIffOneAtATime | src/server/service/ServiceRequestHandler.cpp:168-176 | two sessions at most in every run, if and only if no user has two logins in flight at once |
| Logins.ThreeSessions | src/server/service/ServiceRequestHandler.cpp:168-184 | three logins, two of them at once, make three sessions |
| Logins.HandlerChecksThenCreates | src/server/service/ServiceRequestHandler.cpp:149-192 | the end of a login is one check and one creation of the interleavings, with the same state, or changes nothing |
| Service.LoginDoes | src/server/service/ServiceRequestHandler.cpp:111-199 | a login changes the sessions only by its own, whose id is the first number drawn that was free, needs the stored password and room for it, and touches no file and no other password |
| Service.SignUp | src/server/service/ServiceRequestHandler.cpp:133-147 | a login under a new name creates the user with this password if and only if the vote passes and the name is not `tid`, and touches no session and no file |
| Service.LoginSucceeds | src/server/service/ServiceRequestHandler.cpp:111-199 | a login succeeds if and only if name and password are given, the header carries no session, the user is known with this password or is created by vote, there is room, a free id is drawn and the vote passes; passwords change by exactly a new user let in, and a first vote of no changes nothing |
| Service.HandleLogin | src/server/service/ServiceRequestHandler.cpp:111-199 | succeeds if and only if the above holds, for known and new users; then exactly that session is added; the passwords gain exactly a new user who was let in; a login that is not well-formed changes nothing |
| Service.HandleLoginAlone | src/server/service/ServiceRequestHandler.cpp:168-176 | one login keeps the limit of two sessions |
| Requests.HandleRequest | src/server/service/ServiceRequestHandler.cpp:19-109 | the dispatch, with the session check in front of everything but logins and frontends |
| Requests.InvalidSession | src/server/service/ServiceRequestHandler.cpp:64-84 | a request under a session that does not exist is refused and changes nothing |
| Requests.UploadIsOwn | src/server/service/ServiceRequestHandler.cpp:423-452 | an upload leaves the file of the session's user with the uploaded bytes, or is refused and changes nothing; no other file of any user changes |
| Requests.UpdateIsOwn | src/server/service/ServiceRequestHandler.cpp:341-421 | an update deletes, keeps or replaces a file of the session's user and no other; every refusal leaves the state as it was |
| Requests.FrontendIsAdded | src/server/service/ServiceRequestHandler.cpp:43-62 | a frontend that is voted for comes last in the list, and nothing else changes but the tid |
| Requests.SequentialSessions | src/server/service/ServiceRequestHandler.cpp:149-192 | in every run of logins, logouts, uploads, updates, deletions and frontends handled one after the other, no user ever has more than two sessions, and all sessions are of registered users |
| Service.HandleLogout | src/server/service/ServiceRequestHandler.cpp:316-339 | removes exactly the session of the caller, if it is valid and the vote passes |
| FileUpdates.HandleUpload | src/server/service/ServiceRequestHandler.cpp:423-452 | one upload transaction |
| FileUpdates.HandleFileUpdate | src/server/service/ServiceRequestHandler.cpp:341-421 | a deletion succeeds if and only if the file is known and the vote passes; nothing happens on an equal digest; otherwise the upload of what the client sends, or an error |
| FileUpdates.CheckedIsUpload | src/server/service/ServiceRequestHandler.cpp:372-390 | the bytes on disk are those of a plain upload if and only if the update was not skipped or the stored bytes are the new ones |
| FileUpdates.CheckedIsUploadWithoutCollisions | src/server/service/ServiceRequestHandler.cpp:341-421 | if equal digests mean equal bytes, the hash-checked update is a plain upload |
| FileUpdates.LostIffContinued | src/common/utils.cpp:38-46 | even with a collision-free hash an update is lost, exactly when the contents differ and the longer one goes on with what the read buffer still held behind the shorter one |
| FileUpdates.ZeroByteLost | src/server/service/ServiceRequestHandler.cpp:378-389 | in every coupled state and for every hash function, adding a zero byte to a small file is skipped and lost |
| FileUpdates.ContinuesWithZeros | src/common/utils.cpp:38 | for files of at most one buffer that means zero bytes at the end |

## Left out

- Client programs, terminal commands and the directory watcher: input and output only.
- Sockets, listeners, threads, name lookup and milliseconds: replaced by steps, byte pieces and parameters.
- Protobuf encoding: messages are records, and serialize and deserialize copy fields. The message of an unknown
  transaction type, which the handler drops, is not representable.
- Agreement across a change of coordinator: the code has no protocol for transactions in doubt, so every result about
  the commit protocol is about one reign.
- Liveness under fair delivery: elections retry without bound. What is stated is that the good runs exist
  (`Progress.EveryListCanFinish`, `Elected.EverybodyCanFollow`) and that a loss can end all of them (`Losses`).
- Overflow of the 32-bit transaction id, and reading a tid with a sign or leading white space: ids are natural numbers
  that the server itself wrote.
- Directories inside a user folder, which start-up skips with a warning: the disk model has one level of folders.
- Removing entries while iterating over a directory: every order of the entries is covered, skipped entries are not.
- Memory ownership: the work copy that a rollback releases is treated as readable, since a refused CreateUser and
  CreateSession go on using it; the manager's pointer to its transaction is null before the first one.
- Pings, downloads, listings and heartbeats, and the answers to malformed requests: they change nothing.
- `RwLock`, the mutexes, and the moment between checking a vote's transaction id and counting it.
- Frames of 2 GiB and more, whose size does not fit the `int` that the code keeps it in.
- What the program does after a buffer overrun: the model reports the overrun and stops.
- `Server::startCoordinator` and the notice to the frontends; the main loop that decides when to send heartbeats and when
  to start an election: the protocol may take any server off the list, and any server may start an election, at any time.
- Bully.SingleCoordinator: assumes that timeouts cover the answers of live servers; `Bully.LateAnswer` shows why.
- Service.HandleLogin: the vote of the replicas is a parameter, and the number drawn by `rand()` is an arbitrary one.
- Reigns.PromotedReplicaTid: says what number would be given, not what the next reign does with it.
- Transactions.Transaction.constructor: takes the copy of the state that the code takes in `setState`, under the lock
  of the manager.
- Election.Server.SetCoordinator: does not model the calls of the transaction manager's `SetIsCoordinator`, which is a
  method of its own, and of `startCoordinator`.
