# Replicated to-do service: a verified model

The service keeps a to-do list on several replicas. A replication manager hears fault detectors
through one factory per replica, decides which replica is primary, and sends commands that the
factories relay to their servers. Servers queue client requests, execute them on a chained hash
table, and ship checkpoints of that table to each other. Replication is passive (a primary and
backups) or active (all replicas run, and a recovering one is brought back between quiescence
commands).

The model follows the C sources file by file. Code that changes state in place is a class or a method
over arrays and linked nodes, proved against functions on values; what the service promises is then
proved of those functions for all inputs, all runs and all interleavings of the stated steps.

| module | source | content |
|---|---|---|
| `Types`, `Text` | include/, src/util.c | enumerations and messages; C strings, line cutting, decimal print and scan |
| `Table`, `HashTable` | src/db.c | the table as a value; chained buckets on the heap |
| `Checkpoint` | src/db.c | the checkpoint image: export, import, round trip |
| `Storage` | src/storage.c | the request interpreter |
| `LogQueue` | src/log.c | two bounded FIFO sequences; doubly linked queues on the heap |
| `SockReader` | src/util.c, src/server.c | buffered reading under any pattern of short reads |
| `ServerSpec`, `ServerRuns`, `Server` | src/server.c, src/worker.c, src/state.c, src/chkpt.c | one server: its steps as functions, its runs, its code in place |
| `ServerEffects` | src/server.c, src/worker.c, src/chkpt.c | what a server's steps bring about: promotion, service, role changes, shipping |
| `Failover`, `Quiescence` | src/worker.c, src/server.c | what a promoted server holds; the worker's guard, dequeue and execution as separate steps |
| `ManagerSpec`, `ManagerRuns`, `Manager` | src/replication_manager.c | the manager: as functions, over runs, in place |
| `ManagerEffects`, `PassiveRuns` | src/replication_manager.c, src/server.c | what each replica is sent, who is a member, who is owed a checkpoint; the roles in which passive replicas come to rest |
| `Cluster`, `PromotionGuard`, `ClusterFailover` | all of the above | manager, factory channels and servers together, with crashes, restarts and lost commands |
| `ShippedImages` | src/chkpt.c, src/server.c, src/worker.c | the passive cluster with arriving checkpoints tied to shipped tables |
| `ActiveRecovery`, `RecoveredTable` | src/replication_manager.c, src/worker.c | the recovery bracket of active replication with promptly worked off commands, and the recovered table |
| `ActiveDelivery`, `ActiveRuns` | src/server.c, src/worker.c, src/replication_manager.c | the same bracket with commands in flight and waiting in control queues: one replica, and the whole cluster |
| `ActiveReturn`, `ReturningRuns`, `ActiveFailures` | src/worker.c, src/server.c, src/replication_manager.c | when a replica comes back to ACTIVE_RUNNING, exactly, and runs from the start in which it does not |
| `RecoveredRuns` | src/worker.c, src/db.c, src/chkpt.c | the recovered table under every interleaving |
| `Relay`, `MessageReader` | src/replication_manager.c, src/factory.c, src/server.c | commands printed, parsed, printed and parsed again |
| `Transfer` | src/chkpt.c, src/server.c | a checkpoint from exported table over the socket to imported table |
| `Requests` | src/client.c, src/server.c, src/storage.c | from message text to effect: client requests, relayed commands, checkpoints |

Where the code departs from what its documentation or shape suggests, the model follows the code:

- Removing a node leaves `tail->next` pointing at the removed node (src/log.c:86-88). The invariant is
  interior links both ways and `head->prev == tail`; `LogQueue.Lane.Dequeue` states the stale pointer.
- The lookup loop never advances (src/db.c:38-46). The advancing walk is `HashTable.Search`, and is what
  `Modify` uses; the loop as written is `Table.LoopAsWritten`, with exactly when it returns.
- The prune loop goes on after the checkpoint until the queue is empty (src/worker.c:61-72).
- A checkpoint carries no task status: the line is printed by passing a pointer to `%d`, parsed and
  dropped (src/db.c:178-200, src/db.c:264-266). The printed number is arbitrary, and table equalities
  hold up to status.
- `raw_data` is exactly its `data_len` bytes, since insertion copies no NUL.
- `sock_read` shrinks its count before it moves its pointer by the shrunk count (src/util.c:81-83);
  `SockReader.AdvanceIsRightIff` says when that is harmless. The only use reads one byte.
- The prune flag is raised before the checkpoint is enqueued, also when the queue then refuses it
  (src/server.c:250-263); what that costs is `ServerRuns.RefusedCheckpointLosesRequests`.
- src/replication_manager.c:418 returns with the lock held: the manager's `locked` outcome.
- The start-up state written by `restart_server` is overwritten by its caller
  (src/replication_manager.c:543).
- Failed assertions of src/state.c end the process: `aborted`.

Three promises are false of the code as it stands, and are stated with their exact conditions.

- Importing an export rebuilds the table exactly when no task is longer than 1017 characters
  (`Checkpoint.RoundTripIff`); one addition of a longer one makes it fail
  (`Storage.LongTaskIsNotRestored`).
- True fault reports alone do not keep two servers from becoming primary: commands travel
  asynchronously, and five true reports in a row make the role travel once round while start-ups and
  promotions are still under way (`PromotionGuard.TrueReportsAloneFail`). The exact condition on a
  report is `PromotionGuard.GuardIsExact`.
- The recovery bracket of active replication does not hold for commands that are merely delivered in
  order. Role changes and ship orders wait for the CONTROL worker, while BEGIN and STOP act at once in
  the connection's thread. From the start, with true reports, nothing lost and room for everything,
  BEGIN overtakes RECOVER and aborts a fresh server (`ActiveFailures.FirstRecoveryAborts`), and a
  replica that takes its own RUNNING between BEGIN and STOP of the next recovery is put back and
  stays in ACTIVE_RECOVER for good (`ActiveFailures.StrandedInRecovery`). Each part of the bracket has
  its own exact condition, over every interleaving:
  - A replica is quiet until STOP if and only if no role change waits when BEGIN comes
    (`ActiveDelivery.QuietUntilStopIff`, `ActiveRuns.TimelyBeginIsExact`).
  - A recovering replica ships nothing if and only if, besides, RECOVER found room
    (`ActiveDelivery.RecoveryShipsNothingIff`).
  - A bystander comes back to ACTIVE_RUNNING if and only if BEGIN finds it in that state
    (`ActiveReturn.BystanderReturnsIff`, `ReturningRuns.BystanderIsExact`).
  - A recovering replica comes back if and only if BEGIN finds it knowing its mode, its closing RUNNING
    being in time (`ActiveReturn.RecoveringReturnsIff`, `ReturningRuns.RecoveringIsExact`), and that
    RUNNING is in time if and only if it finds room or is the last role anyway
    (`ActiveReturn.RunningTakenIff`).

  Over whole runs, `ActiveRuns.TimelyRunsRecover` has the first condition give quiet and return, and
  `ReturningRuns.ReturningRunsReturn` has the weaker ones give the return alone. The theorems of
  `ActiveRecovery` and `RecoveredTable` are about commands that are worked off promptly, each before the
  next is sent; `ActiveRuns.PromptIsApply` derives their premise from the relay.

## Model

| member | source | states |
|---|---|---|
| `Text.PiecesLoseNothing` | src/util.c:88-103 | Cutting a stream into lines loses and invents nothing; each piece but the last ends at its only newline or at the size limit. |
| `Text.NextLineResumes` | src/util.c:88-103 | A line read after a newline-free start is that start followed by the line read from there with the remaining room. |
| `Text.StrToIntReadBack` | src/util.c:105-113 | Every long printed in decimal is read back by base-0 scanning as itself cut to 32 bits; only LONG_MIN is refused. |
| `Text.StrToULongDec` | src/db.c:239 | A printed 64-bit key is read back unchanged, whatever non-digit follows it. |
| `Table.InsertRefinesMap` | src/db.c:49-67 | As a map from keys to entry lists: insertion appends to its own key's list, refuses key 0, touches no other key. |
| `Table.DeleteRefinesMap` | src/db.c:81-101 | Deletion drops the oldest entry of its key, if any, and touches no other key. |
| `Table.ModifyRefinesMap` | src/db.c:103-113 | Modification rewrites the status of the oldest entry of its key and nothing else. |
| `Table.InsertWf` | src/db.c:20-36 | Insertion keeps every entry in bucket key mod n under a non-zero key and the size counter equal to the sum of stored lengths. |
| `Table.DeleteWf` | src/db.c:81-101 | Deletion keeps bucket placement and the size counter. |
| `Table.ModifyWf` | src/db.c:103-113 | Modification keeps bucket placement and the size counter. |
| `Table.AsWrittenReturnsIff` | src/db.c:38-46 | The lookup loop as written returns exactly when the chain is empty or its head matches, with the answer of the advancing walk; otherwise it is still running after any number of turns. |
| `Table.EraseModify` | src/db.c:103-113 | Up to status, a modification does nothing. |
| `HashTable.LinkLast` | src/db.c:22-36 | The new node is linked behind the last node of its chain; the others keep their order and contents. |
| `HashTable.Unlink` | src/db.c:81-101 | The walk bypasses exactly the first node with the key, if there is one, and reports its length. |
| `HashTable.Search` | src/db.c:38-46 | The advancing walk finds the first node with the key, or null when there is none. |
| `HashTable.ExportChain` | src/db.c:185-200 | Appends the printed entries of one chain, from head to end, to the text so far. |
| `HashTable.HashTable.constructor` | src/db.c:131-138 | A fresh table is empty. |
| `HashTable.HashTable.Insert` | src/db.c:49-67 | The heap table after an insertion is the value-level insertion; key 0 is refused. |
| `HashTable.HashTable.Delete` | src/db.c:81-101 | The heap table after a deletion is the value-level deletion; success exactly when the key had an entry. |
| `HashTable.HashTable.Modify` | src/db.c:103-113 | The heap table after a modification, over the advancing search, is the value-level one; success exactly when the key had an entry. |
| `HashTable.HashTable.Reset` | src/db.c:131-153 | Afterwards the table is empty with the same number of buckets. |
| `HashTable.HashTable.ExportDb` | src/db.c:170-208 | Writes the image of the whole table. |
| `HashTable.HashTable.ImportDb` | src/db.c:210-274 | The heap table becomes the table the line-by-line reader makes of the text. |
| `HashTable.HashTable.ImportLine` | src/db.c:236-268 | One line has the value-level reader's effect on table, scan variables and end flag. |
| `Checkpoint.ReadsLineFirst` | src/db.c:236-268 | Reading a text that starts with a whole line is reading that line, in as many 1023-character pieces as it needs, and then the rest. |
| `Checkpoint.ReadDataLine` | src/db.c:254-257 | The data line leaves the task at the front of the data buffer, also when the size limit cuts the line between the task and its newline. |
| `Checkpoint.EntryReadBack` | src/db.c:170-274 | Reading one printed entry inserts exactly its key and bytes, whatever follows. |
| `Checkpoint.RoundTrip` | src/db.c:170-274 | Import after export rebuilds every bucket's chain in order with the same keys, bytes and total size, up to status. |
| `Storage.LongTaskIsNotRestored` | src/db.c:210-274 | One task of 1018 characters added to an empty table is not restored by importing the export. |
| `Checkpoint.RoundTripThen` | src/db.c:242-245 | The same whatever follows the last line of the image. |
| `Checkpoint.RoundTripIff` | src/db.c:170-274 | For tables of tasks as request buffers hold them, the round trip is exact if and only if no task is longer than 1017 characters. |
| `Storage.HandleStorage` | src/storage.c:68-111 | Every request type has its value-level effect on the heap table and its status code. |
| `Storage.HandleOnKey` | src/storage.c:77-110 | On the entries under a key, oldest first: an addition appends, a removal drops the oldest, a modification writes the oldest's status, everything but a checkpoint leaves other keys alone. |
| `Storage.RunOnKey` | src/storage.c:77-110 | The same over every list of requests without checkpoints. |
| `Storage.CodeTells` | src/storage.c:77-110 | An addition or removal reports success exactly if it changed the table; of the others, which always succeed and which always fail. |
| `Storage.AlwaysWf` | src/storage.c:68-111 | After any list of requests: entries in their buckets under non-zero keys, size counter exact. |
| `Storage.StatusNeverMatters` | src/storage.c:68-111 | Tables equal up to status stay so under any request list. |
| `Storage.CheckpointAbsorbs` | src/storage.c:100-106 | With the same last image and the same requests after it, two replicas with arbitrary pasts hold the same table. |
| `Storage.ReplicaCatchesUp` | src/storage.c:68-111 | A replica rebuilt from a primary's export and the same later requests agrees with the primary up to status. |
| `LogQueue.FifoRun` | src/log.c:68-161 | In every run and per queue: taken, then still queued, equals initial, then accepted; a queue within its limit stays within it. |
| `LogQueue.LanesIndependent` | src/log.c:68-161 | A queue after any run is what the run's own operations on it make of it. |
| `LogQueue.Lane.Enqueue` | src/log.c:115-161 | Appends the node, or refuses exactly when full; keeps count, links and `head.prev == tail`; afterwards the last node points at the head. |
| `LogQueue.Lane.Dequeue` | src/log.c:68-113 | Takes the first node, null exactly when empty; keeps the invariant; afterwards the last node of a formerly closed circle points at the removed node. |
| `LogQueue.ServerLog.constructor` | src/log.c:13-23 | Both queues start empty with their limits. |
| `LogQueue.ServerLog.GetCount` | src/log.c:42-66 | The length of the queue asked for. |
| `LogQueue.ServerLog.Enqueue` | src/log.c:115-161 | The two queues together step as the two bounded sequences do; -1 exactly when the queue is full or the type is invalid. |
| `LogQueue.ServerLog.Dequeue` | src/log.c:68-113 | The two queues together step as the two sequences do, and the result is the first node of the queue asked for. |
| `SockReader.SockReadN` | src/util.c:20-43 | For every pattern of short and interrupted reads: exactly min(n, what is left) bytes, the next ones of the stream. |
| `SockReader.BufferedSocket.constructor` | src/util.c:64-69 | Nothing has been taken from the stream yet. |
| `SockReader.BufferedSocket.SockRead` | src/util.c:70-87 | Gives a non-empty start of what is pending, nothing only at the end of the stream; for one byte, what stays pending is exactly the rest. |
| `SockReader.BufferedSocket.TakeBuffered` | src/util.c:77-85 | The pointer moves by the already shrunk count; what stays pending is exactly the rest whenever the buffer held at most n or at least 2n bytes. |
| `SockReader.AdvanceIsRightIff` | src/util.c:81-83 | What stays pending is the rest, whatever buffer and stream hold, if and only if the buffer held at most n or at least 2n bytes. |
| `SockReader.BufferedSocket.SockReadLine` | src/util.c:88-103 | Returns the next line of what is pending, and leaves exactly the rest. |
| `SockReader.ReadPayload` | src/server.c:313-326 | The loop ends exactly when at least `size` bytes are pending, and then the payload is the next `size` bytes; otherwise it never ends. |
| `ServerRuns.BootFsm` | src/state.c:16-16 | A fresh server has no mode or state, an empty table, and nothing queued, executed or shipped. |
| `ServerRuns.PrunePass` | src/worker.c:59-73 | A pass empties the queue, executes exactly its checkpoints, leaves the table of the last one (unchanged without any), and lowers the flag exactly when it met one. |
| `ServerRuns.DrainExecutes` | src/worker.c:59-73 | The requests executed are the checkpoints of the queue in order; the table is the old one after them. |
| `ServerRuns.LastCheckpointWins` | src/worker.c:59-73 | Executing all checkpoints of a queue leaves what importing the last one leaves. |
| `ServerRuns.PruneTurn` | src/worker.c:58-118 | The same of a whole turn of the NORMAL worker with the flag up, whatever role it goes on to take. |
| `ServerRuns.PlainTurn` | src/worker.c:74-110 | With the flag down a turn executes exactly the head of the queue, and nothing when the queue is empty or the server is a backup or in QUIESCE. |
| `ServerRuns.FsmStep` | src/state.c:18-53 | No step that does not abort breaks the state machine invariant, and a mode once set is never rewritten. |
| `ServerRuns.FsmRun` | src/state.c:18-53 | In every non-aborted state of every run each mode admits only its own states, and the one checkpoint thread runs exactly in PASSIVE_PRIMARY. |
| `ServerRuns.PruneSoundStep` | src/server.c:250-263 | While no checkpoint is refused, the flag is up only when a checkpoint waits in the queue. |
| `ServerRuns.FlagStaysSoundIff` | src/server.c:250-263 | Receiving breaks that exactly when a backup's full queue, holding no checkpoint, refuses one. |
| `ServerRuns.RefusedCheckpointLosesRequests` | src/server.c:259-262 | From then on, in any run without another checkpoint and even after promotion, nothing is executed and the table never changes. |
| `ServerRuns.BackupExecutesOnlyCheckpoints` | src/worker.c:36-77 | Whatever step a backup takes, every request it executes is a checkpoint. |
| `ServerRuns.ActiveNeverPrunes` | src/server.c:250-263 | In every run the flag stays down outside passive replication. |
| `ServerRuns.TableIsHistory` | src/server.c:439-477 | In every run the table is the starting table after exactly the executed requests, in order. |
| `ServerEffects.PromotedByTurnIff` | src/worker.c:58-110 | A turn makes a PREPRIMARY server PRIMARY if and only if it finds the prune flag up, the queue empty, or a head that was not backlog. |
| `ServerEffects.ServesAll` | src/worker.c:89-110 | With nothing arriving, as many turns as requests wait serve them all in order, for a server that is no backup, not in QUIESCE and has no prune pass pending. |
| `ServerEffects.BecomesPrimary` | src/worker.c:78-83 | With nothing arriving, one turn more than requests wait makes a server being promoted PRIMARY, drained, with exactly one checkpoint thread, and the table after all that waited. |
| `ServerEffects.RoleChangeInFull` | src/server.c:395-403 | A role change executed without aborting leaves exactly its state, peers and frequency, and its mode if there was none; no other step touches peers or frequency. |
| `ServerEffects.TickShipsIff` | src/chkpt.c:126-168 | A turn of the checkpoint thread ships the table if and only if the server is PRIMARY. |
| `ServerEffects.ArrivesWhere` | src/server.c:250-263 | Heartbeats, role changes and ship orders go to the control queue, all else to the other, tagged as backlog in a backup; refused exactly when that queue is full; nothing else changes but the prune flag. |
| `ServerEffects.ControlFlows` | src/worker.c:89-98 | In every run control requests are taken in the order accepted, whatever the NORMAL queue, quiescence and role. |
| `Failover.FailoverRun` | src/worker.c:59-110 | In every run without a refused checkpoint: table and queue together are the last executed image, or the starting table, and exactly the requests accepted since, in order. |
| `Failover.FailoverState` | src/worker.c:59-110 | Once drained, the table is the last executed image followed by exactly the requests accepted after the prune pass that executed it. |
| `Failover.NewPrimaryHoldsOldState` | src/worker.c:59-110 | Hence a drained new primary agrees up to status with the one it replaces, when the image is that primary's export and the requests since are those it executed after the cut. |
| `Failover.BackupHoldsImage` | src/worker.c:36-41 | Until it is promoted, and if it is not made BACKUP again, a backup's table is the last executed image itself and every request accepted since is still queued. |
| `Failover.PromotionOrder` | src/server.c:443-447 | In every run whose executed role changes the queue admits, the queue is all backlog followed by all others, and a server is PRIMARY only when no backlog waits. |
| `Failover.RoleChangeKeepsOrderIff` | src/server.c:395-403 | A role change that does not abort keeps that order if and only if the queue admits it: a direct PASSIVE_PRIMARY when no backlog waits, a BACKUP when nothing else does. |
| `Failover.PromotionStepIff` | src/worker.c:58-110 | A step that does not abort keeps that order if and only if it executes no inadmissible role change. |
| `Failover.PromotionTurn` | src/worker.c:58-110 | A turn of the NORMAL worker keeps that order, including a promotion by an empty queue or by the first request that is not backlog. |
| `Failover.PromotionDrainOne` | src/worker.c:61-72 | So does each turn of the prune loop, also one that promotes in the middle of it. |
| `Quiescence.FourStepsAreATurn` | src/worker.c:78-110 | Left to itself the worker's small steps do what its turn does. |
| `Quiescence.AtMostOneAfterQuiesce` | src/worker.c:89-110 | With guard, dequeue and execution interleaved with everything else: as long as QUIESCE lasts, at most the one request already past the guard is executed, and the table changes by exactly that. |
| `Quiescence.OneStillRuns` | src/worker.c:100-104 | That one can happen. |
| `Quiescence.ControlGoesOn` | src/worker.c:89-98 | Meanwhile control requests are taken in order, and an order to ship is carried out unless the server was recovering. |
| `Quiescence.BracketRestoresIff` | src/worker.c:24-32 | With anything in between, role changes and further pairs included: the pair aborts exactly if what is in between does, and else restores the state if and only if the last start in between, if any, found that state again. |
| `Quiescence.BracketNestsIff` | src/worker.c:24-32 | Without role changes: it never aborts, and restores the state if and only if no start in between comes while the server is in QUIESCE. |
| `Quiescence.BracketRestores` | src/worker.c:24-32 | A balanced start and stop, with any traffic between, restores the state and has executed nothing. |
| `Quiescence.NestedStartSticks` | src/worker.c:24-32 | A second start inside the pair is not undone: the server stays in QUIESCE. |
| `Server.Server.constructor` | src/state.c:16-16 | A fresh process is the value-level fresh server. |
| `Server.Server.StartThread` | src/chkpt.c:169-177 | Starts a checkpoint thread unless one is flagged as running. |
| `Server.Server.KillThread` | src/chkpt.c:179-191 | Afterwards the flagged thread is gone. |
| `Server.Server.SetMode` | src/state.c:18-25 | The mode is written once; anything else aborts. |
| `Server.Server.SetState` | src/state.c:27-53 | Writes an admissible state and starts or stops the checkpoint thread in passive mode; an inadmissible one aborts. |
| `Server.Server.PutInQuiescence` | src/worker.c:24-27 | Notes the state and enters QUIESCE. |
| `Server.Server.RemoveFromQuiescence` | src/worker.c:29-32 | Goes back to the noted state. |
| `Server.Server.HandleRepMsg` | src/server.c:395-403 | A role change as the value-level server takes it. |
| `Server.Server.EnqueueClientReq` | src/server.c:250-263 | Tags backlog, raises the prune flag, queues by kind, and refuses exactly when that queue is full. |
| `Server.Server.ExecuteMsg` | src/server.c:439-477 | Promotes on the first request that is not backlog, then executes it on the heap table. |
| `Server.Server.PruneOne` | src/worker.c:61-72 | One turn of the prune loop on the linked queue; false exactly when it was empty. |
| `Server.Server.PruneLoop` | src/worker.c:59-73 | The loop terminates and leaves what the value-level pass leaves. |
| `Server.Server.NormalTurn` | src/worker.c:58-118 | A whole turn of the NORMAL worker on heap queues and heap table is the value-level turn. |
| `Server.Server.ControlTurn` | src/server.c:405-438 | So is a turn of the CONTROL worker. |
| `ManagerSpec.BootInv` | src/replication_manager.c:63-71 | The initial state satisfies the manager invariant, with an exact count. |
| `ManagerSpec.ReportKeepsInv` | src/replication_manager.c:374-555 | Every report, whatever sends fail, either loses the lock or keeps: flags within count within replicas, a flag implies RUNNING, no node left in the start-up state, a checkpoint owed implies a primary; an exact count stays exact. |
| `ManagerSpec.LockLostIff` | src/replication_manager.c:414-420 | The lock is lost exactly when, in passive mode, a restarted replica is owed a checkpoint and the primary's factory cannot be reached. |
| `ManagerSpec.HeartbeatKeepsInv` | src/replication_manager.c:722-743 | A heartbeat round keeps the invariant; the count stays exact if nothing timed out. |
| `ManagerSpec.ElectionNamesTheOthers` | src/replication_manager.c:220-270 | With three replicas an election names exactly the two that are not elected. |
| `ManagerEffects.PassiveSentToIs` | src/replication_manager.c:387-421 | In passive mode, whatever sends fail, each replica is sent exactly: its role when it comes up (the election if it is the primary, BACKUP otherwise), SEND_CHKPT if it is the primary and the one coming up is owed a checkpoint, a start-up when it is down, the election when its predecessor was the primary and is down. |
| `ManagerEffects.PassiveFailsIff` | src/replication_manager.c:387-545 | In passive mode a report fails exactly if a role, an election or an order to ship could not be sent. |
| `ManagerEffects.ActiveLosses` | src/replication_manager.c:422-470 | In active mode a failed send is missing from the wire and nothing else changes. |
| `ManagerEffects.ActiveFailsIff` | src/replication_manager.c:422-541 | In active mode a report fails exactly if RECOVER, the order to ship, RUNNING or an election could not be sent. |
| `ManagerEffects.ElectionCarries` | src/replication_manager.c:220-270 | An election carries the role of the mode, the configured frequency, and the first two other replicas. |
| `ManagerEffects.Remembered` | src/replication_manager.c:472-545 | The node's state is what was reported; in passive mode a replica is owed a checkpoint from its first fault under a known primary on, for good. |
| `ManagerEffects.FlagFollowsReport` | src/replication_manager.c:186-205 | Whenever the lock is released, the replica reported on has been heard of and is a member after RUNNING, not after FAULTED; nobody else's standing changes. |
| `ManagerEffects.MembersAreRunning` | src/replication_manager.c:186-205 | In every run without timeouts the members are exactly the RUNNING nodes, and the count is their number. |
| `ManagerEffects.SilentLosesFlag` | src/replication_manager.c:722-743 | A replica loses its membership in a heartbeat round exactly if no report about it came since the round before. |
| `ManagerEffects.BootMembers` | src/replication_manager.c:63-71 | At first there is no primary, every node is FAULTED, nobody is a member and nobody is owed a checkpoint. |
| `ManagerRuns.AlwaysInv` | src/replication_manager.c:374-555 | The invariant holds at every normal lock release of every run of reports and heartbeat rounds. |
| `ManagerRuns.CountIsExact` | src/replication_manager.c:186-218 | In runs without timeouts the server count is the number of set flags. |
| `ManagerRuns.PrimaryStep` | src/replication_manager.c:475-545 | A known primary changes exactly at a FAULTED report of itself, to the next index round the ring. |
| `ManagerRuns.RotationEnds` | src/replication_manager.c:475-545 | With a fixed set of live replicas and true reports: moves made plus ring distance to the nearest live replica is constant, there are at most N - 1 moves, and a live primary is never moved. |
| `Manager.Manager.constructor` | src/replication_manager.c:63-71 | The globals start as the value-level manager does. |
| `Manager.Manager.ElectNewPrimary` | src/replication_manager.c:272-300 | One election message goes out and the replica becomes primary, or neither and -1 when the connection fails. |
| `Manager.Manager.RestartServer` | src/replication_manager.c:586-619 | One start-up command goes out and the node is marked as being started, or neither when the connection fails. |
| `Manager.Manager.MoveRole` | src/replication_manager.c:488-509 | The role goes to the next index, its election goes out, and in passive mode the faulted replica is owed a checkpoint. |
| `Manager.Manager.ToAllRunning` | src/replication_manager.c:807-823 | The command goes to every replica marked RUNNING, in index order. |
| `Manager.Manager.PassiveUp` | src/replication_manager.c:387-421 | A replica coming up in passive mode: role command, the owed checkpoint, and the return with the lock held. |
| `Manager.Manager.ActiveUp` | src/replication_manager.c:422-470 | A replica coming up in active mode: the first one runs at once, any other is bracketed. |
| `Manager.Manager.Bracket` | src/replication_manager.c:436-469 | RECOVER, BEGIN to all RUNNING, ship, STOP to all RUNNING, RUNNING, in this order on the wire. |
| `Manager.Manager.Down` | src/replication_manager.c:475-545 | A replica reported down: start-up, rotation and election, checkpoint owed. |
| `Manager.Manager.Summary` | src/replication_manager.c:186-218 | Membership flag and count, clamped at the number of replicas. |
| `Manager.Manager.HandleState` | src/replication_manager.c:374-555 | The whole handler on the globals is the value-level handler: new state, commands sent, result. |
| `Manager.Manager.HeartbeatRound` | src/replication_manager.c:722-743 | One round clears the flags of silent replicas and all heartbeats. |
| `Cluster.OwnStep` | src/server.c:395-403 | No delivery, loss, crash or server step makes a replica more entitled to the primary role than it was. |
| `Cluster.ReportSends` | src/replication_manager.c:387-545 | In passive mode a report sends a promotion to no replica but the one that is primary afterwards. |
| `Cluster.ReportStep` | src/replication_manager.c:387-545 | A guarded report keeps: only the manager's primary is or can become primary. |
| `Cluster.AtMostOnePrimary` | src/replication_manager.c:387-545 | In every guarded run with crashes, restarts and losses at most one live server is PREPRIMARY or PRIMARY, and it is the manager's primary; no server ever aborts. |
| `Cluster.BootIsSafe` | src/replication_manager.c:63-71 | The initial cluster is safe. |
| `PassiveRuns.SiteStaysHeading` | src/server.c:395-403 | No delivery that finds room, crash or own step takes a passive replica off its way to its role. |
| `PassiveRuns.RestsInItsRole` | src/replication_manager.c:387-545 | In every run of the passive cluster with no command lost and room for role changes, any reports, crashes and restarts: a live replica marked RUNNING, with nothing under way or waiting, is BACKUP, or, if it is the manager's primary, PREPRIMARY or PRIMARY with the election's peers and the frequency cut to an int. |
| `PassiveRuns.PrimaryIsComplete` | src/worker.c:78-83 | From there on, one turn more than requests wait makes that primary PRIMARY, drained, with one checkpoint thread and the two other replicas for its peers. |
| `PassiveRuns.BootHeads` | src/replication_manager.c:63-71 | The initial passive cluster satisfies the invariant. |
| `PromotionGuard.OwedBecomesPrimary` | src/worker.c:80-83 | A replica owed a promotion can become primary on what is already under way to it. |
| `PromotionGuard.NotOwedStaysSo` | src/server.c:395-403 | A replica that is not owed one never becomes primary without a further report. |
| `PromotionGuard.TwoOwedBothBecomePrimary` | src/server.c:395-403 | Two replicas owed a promotion can both become primary at once. |
| `PromotionGuard.GuardIsExact` | src/replication_manager.c:488-508 | When the primary is reported down, two primaries can arise without a further report if and only if the old primary still is, or still can become, primary, its successor runs or is being started, and the election is not lost. |
| `PromotionGuard.TrueReportsAreSafe` | src/replication_manager.c:387-545 | With true reports of which none overtakes a start-up command: at most one primary in every run from the start, the manager's own. |
| `PromotionGuard.TrueReportsAloneFail` | src/replication_manager.c:475-508 | Five true reports, all before any command is delivered, after which two servers become primary. |
| `ClusterFailover.ServerSeesItsRun` | src/factory.c:459-496 | Inside any run of the cluster, a server that does not crash goes through exactly the server run it sees. |
| `ClusterFailover.FailoverInCluster` | src/worker.c:59-110 | Hence the failover property holds of every replica inside every such run of the cluster. |
| `ClusterFailover.PromotionInCluster` | src/server.c:443-447 | In the cluster, where no server is ever made PRIMARY at once, the promotion order holds in every run for a replica that does not crash and is not made BACKUP again. |
| `ShippedImages.FailoverOnShipped` | src/chkpt.c:105-168 | In every run in which arriving checkpoints were shipped by servers of the cluster: a replica that does not crash and is refused no checkpoint holds, once drained, its starting table or a table that was really shipped, followed by exactly the requests accepted since. |
| `ShippedImages.BootIsSound` | src/replication_manager.c:63-71 | A cluster without servers, nothing shipped, satisfies the invariant. |
| `ShippedImages.ServerSound` | src/chkpt.c:105-124 | A server ships its own table or nothing, and steps keep tables well-formed. |
| `ShippedImages.RealStep` | src/worker.c:59-73 | If all queued checkpoints are real, so is the table the last prune pass left. |
| `ActiveRecovery.BracketIs` | src/replication_manager.c:432-473 | Every FAULTED-to-RUNNING report with a known primary sends exactly the bracket and marks the replica RUNNING. |
| `ActiveRecovery.BracketSent` | src/replication_manager.c:807-823 | Each replica receives exactly its own part of the bracket. |
| `ActiveRecovery.OwnCommands` | src/factory.c:459-496 | With promptly worked off commands: whatever happens to others, a replica that is not killed ends as its own commands leave it; killed, it stays down until started. |
| `ActiveRecovery.Bystander` | src/worker.c:24-32 | With promptly worked off commands: a running replica goes into QUIESCE and comes back as it was, having shipped exactly when asked. |
| `ActiveRecovery.Recovering` | src/server.c:415-418 | With promptly worked off commands: the recovering server goes through QUIESCE to ACTIVE_RUNNING and ships nothing, even when asked. |
| `ActiveRecovery.RecoveryReport` | src/replication_manager.c:432-473 | With promptly worked off commands: after a recovery every surviving RUNNING replica and the recovered one are in ACTIVE_RUNNING with table and queue untouched, and only a primary that was not recovering has shipped. |
| `ActiveRecovery.QuietWhenShipping` | src/replication_manager.c:444-455 | With promptly worked off commands: when the order to ship arrives, every surviving RUNNING replica and the recovering one are in QUIESCE. |
| `ActiveRecovery.AlwaysRecovered` | src/replication_manager.c:374-555 | With promptly worked off commands, in every run with any reports and crashes at any point, even inside a bracket: every live replica marked RUNNING is in ACTIVE_RUNNING whenever the lock is free. |
| `ActiveRecovery.BootRecovered` | src/replication_manager.c:63-71 | The initial active cluster satisfies that invariant. |
| `RecoveredTable.RecoveredAgreesIff` | src/replication_manager.c:432-473 | With promptly worked off commands: the recovered replica and a survivor agree up to status from then on if and only if what waited at the survivor when it shipped changes nothing; or, when the recovered one is itself the primary and nobody ships, its own table and queue already amount to the survivor's. |
| `RecoveredTable.RestartedPrimaryForgets` | src/replication_manager.c:531-535 | So a restarted primary with nothing waiting anywhere agrees with a survivor if and only if that one's table is empty. |
| `RecoveredTable.AgreeForeverIff` | src/storage.c:68-111 | Two tables agree up to status after every request list exactly if they agree at once. |
| `RecoveredTable.EmptyAgreesIff` | src/db.c:131-138 | An empty table agrees with exactly the tables that hold no entry. |
| `ActiveDelivery.ControlTurn` | src/server.c:405-438 | A turn of the CONTROL worker takes the next request: a role change takes effect, a ship order is carried out unless a recovery is noted. |
| `ActiveDelivery.QuietUntilStopIff` | src/server.c:343-361 | After BEGIN a live server is in QUIESCE until STOP is delivered, under every interleaving, if and only if it knew its mode and no role change waited in its control queue. |
| `ActiveDelivery.RoleTakenIff` | src/server.c:250-263 | A delivered role change has taken effect, whatever the server did since, if and only if it found room in the control queue and no longer waits there. |
| `ActiveDelivery.ShipsNothingIff` | src/server.c:415-418 | After BEGIN ahead of a ship order a server survives and ships nothing, under every interleaving, if and only if its recovery had taken effect. |
| `ActiveDelivery.RecoveryShipsNothingIff` | src/replication_manager.c:432-473 | For a whole recovery, with any steps of the server between RECOVER and BEGIN: if and only if RECOVER found room and no role change waits when BEGIN comes. |
| `ActiveRuns.SentToIs` | src/replication_manager.c:374-555 | What each replica is sent by each report of an active cluster. |
| `ActiveRuns.SiteStaysInOrder` | src/server.c:343-365 | No timely delivery, crash or own step takes a replica off the course its commands lead it on, and a live server goes only by crashing. |
| `ActiveRuns.TimelyRunsRecover` | src/replication_manager.c:374-555 | In every run with no command lost, any reports, and crashes and restarts at any point: if role changes find room and BEGIN finds none waiting, no server aborts, a server is in QUIESCE exactly between BEGIN and STOP, and one marked RUNNING with nothing under way is in ACTIVE_RUNNING. |
| `ActiveRuns.OnlyCrashesEndServers` | src/state.c:27-53 | In such a run a live server goes only by crashing. |
| `ActiveRuns.ShipsQuietlyIff` | src/server.c:415-418 | When a ship order is taken, all live replicas marked RUNNING are in QUIESCE if and only if BEGIN has been delivered to each of them and STOP has not. |
| `ActiveRuns.TimelyBeginIsExact` | src/server.c:343-361 | In such a run the condition on BEGIN is exact: quiet until STOP under every interleaving if and only if no role change waits. |
| `ActiveRuns.BeginOvertakesRecover` | src/replication_manager.c:436-444 | Every recovery of a freshly started replica can fail: RECOVER and BEGIN delivered in order, one right after the other, abort it. |
| `ActiveRuns.BootInOrder` | src/replication_manager.c:63-71 | The initial active cluster is in order. |
| `ActiveRuns.PromptIsApply` | src/server.c:250-263 | Where heartbeats are all that waits, a command delivered and at once taken by the CONTROL worker has exactly the effect on which the theorems about prompt commands rest. |
| `ActiveReturn.EndsInLastRole` | src/server.c:405-438 | With no command under way, every interleaving leaves a server in the last role waiting for it. |
| `ActiveReturn.RunningTakenIff` | src/server.c:250-263 | A closing RUNNING brings the server back under every interleaving if and only if it finds room or is the last role anyway. |
| `ActiveReturn.BystanderReturnsIff` | src/worker.c:24-32 | In somebody else's recovery a replica comes back to ACTIVE_RUNNING under every interleaving if and only if it is in ACTIVE_RUNNING when BEGIN is delivered. |
| `ActiveReturn.RecoveringReturnsIff` | src/worker.c:24-32 | In its own it survives BEGIN and, the closing RUNNING being in time, comes back under every interleaving if and only if it knows its mode when BEGIN is delivered. |
| `ReturningRuns.SiteStaysHeading` | src/server.c:343-365 | No such delivery, crash or own step takes a replica off its way back, and a live server goes only by crashing. |
| `ReturningRuns.ReturningRunsReturn` | src/replication_manager.c:374-555 | In every run with no command lost, any reports, and crashes and restarts at any point: if BEGIN finds bystanders in ACTIVE_RUNNING and recovering servers knowing their mode, and RUNNING is in time, no server aborts and one marked RUNNING with nothing under way is in ACTIVE_RUNNING. |
| `ReturningRuns.BystanderIsExact` | src/worker.c:24-32 | The condition on a bystander is exact in every such run. |
| `ReturningRuns.RecoveringIsExact` | src/worker.c:24-32 | So is the condition on a recovering replica. |
| `ReturningRuns.TimelyIsReturning` | src/server.c:343-361 | The conditions for quiet imply those for the return. |
| `ReturningRuns.Reported` | src/replication_manager.c:374-555 | What a report of an active cluster makes of manager and channels. |
| `ReturningRuns.BootHeads` | src/replication_manager.c:63-71 | The initial active cluster satisfies the invariant. |
| `ActiveFailures.FirstRecoveryAborts` | src/replication_manager.c:436-444 | A run from the start, reports true, nothing lost, room for every role change: BEGIN overtakes RECOVER and the recovering server aborts. |
| `ActiveFailures.StrandedInRecovery` | src/worker.c:24-32 | Such a run in which a live replica marked RUNNING comes to rest in ACTIVE_RECOVER. |
| `RecoveredRuns.DrainedIs` | src/worker.c:89-110 | Once drained, an active server's table is the starting one after what waited and exactly what it accepted since, in order. |
| `RecoveredRuns.RecoveredAgreesInRunsIff` | src/replication_manager.c:432-473 | Under every interleaving, with the image arriving at any point: the drained replicas agree up to status if and only if the shipped table becomes the same by what the recovered one executes after the image and by what the survivor executes after shipping. |
| `RecoveredRuns.SameRequestsAgree` | src/replication_manager.c:432-473 | They agree if these requests are the same. |
| `Relay.ScanBack` | src/factory.c:240-243 | A printed field is scanned back as the same key and value. |
| `Relay.ReadBack` | src/server.c:277-307 | A printed message is read back field by field, whatever follows it on the connection. |
| `Relay.ReadBackIff` | src/server.c:291-294 | A message is read back exactly if it has at most twenty fields; one with more is refused. |
| `Relay.CutOffIsDropped` | src/server.c:280-284 | A message whose connection ends before the empty line is never acted on, however much of it has arrived. |
| `Relay.FactoryParses` | src/factory.c:591-652 | The factory's message is the manager's command, whatever it held before; only a frequency of LONG_MIN is unreadable. |
| `Relay.ServerParses` | src/server.c:187-244 | The server's message is the command the factory parsed. |
| `Relay.RelayRoundTrip` | src/replication_manager.c:220-341 | Through both print and parse hops: a command with an empty address or a frequency of LONG_MIN is dropped, a start-up spawns the server, and any other command reaches the server as exactly what the manager chose. |
| `Relay.RoleChangeArrives` | src/server.c:187-244 | Mode and state always arrive; for PREPRIMARY and ACTIVE_RUNNING so do the frequency (cut to an int), ids, addresses and ports; otherwise those have their defaults. |
| `Relay.NotRelayed` | src/factory.c:459-496 | Another replica's factory ignores the command. |
| `MessageReader.ReadIntoIs` | src/factory.c:213-255 | Filling the message line by line while reading is the same as reading all fields and then filling it. |
| `MessageReader.Message.FactoryField` | src/factory.c:591-652 | One field in place, as the value-level parser does it; false exactly on a malformed number. |
| `MessageReader.Message.ServerField` | src/server.c:133-248 | The same of the server's parser, with all its keys. |
| `MessageReader.Message.Read` | src/server.c:277-307 | The reading loop over a buffered socket fills the message exactly when the whole of it parses. |
| `MessageReader.HandleRepManager` | src/factory.c:213-255 | What a factory does with the bytes of one connection. |
| `MessageReader.Message.BodyField` | src/server.c:133-186 | The keys of client requests, the message header and the payload length, in place. |
| `Transfer.HandleConnection` | src/server.c:264-326 | Header loop and payload loop over a buffered socket, for every pattern of short reads: the connection dropped, a payload that never completes, a negative count, or exactly the payload. |
| `Transfer.DecToInt` | src/util.c:105-113 | Every printed natural number is accepted as an int: saturated at 64 bits, then cut to 32. |
| `Transfer.HeaderArrives` | src/chkpt.c:74-81 | The receiver reads the header the sender wrote, and then as many bytes as its reading of the length says. |
| `Transfer.ImageArrivesIff` | src/chkpt.c:65-103 | The payload is the image sent, whatever follows it, if and only if the image has fewer than 2^31 bytes. |
| `Transfer.TableArrives` | src/chkpt.c:65-103 | A table sent as a checkpoint is rebuilt by its receiver, every chain in order, up to status. |
| `Transfer.ReceiveCheckpoint` | src/server.c:264-341 | The same end to end over a socket: importing what was received gives the exported table. |
| `Requests.Dispatch` | src/server.c:343-365 | The end of handle_connection on a heap server: quiescence at once, everything else queued. |
| `Requests.CommandIsText` | src/factory.c:459-496 | A command in the cluster has exactly the effect of its text: printed by the manager, parsed and acted on by the factory, read, dispatched and obeyed by the server; quiescence included. |
| `Requests.ScanTrims` | src/server.c:295-300 | A scanned value has lost its leading blanks; a value of blanks alone makes the line malformed. |
| `Requests.ClientRoundTrip` | src/client.c:39-76 | Additions, removals and modifications as clients print them are read as type, number, client, task, date, status and key as sent, but for leading blanks, whatever follows; or dropped, exactly if a text is blank. |
| `Requests.ClientIsServed` | src/client.c:39-76 | Sent to a live server as text, such a request is queued as exactly that request. |
| `Requests.TypedNumber` | src/server.c:160-162 | A key typed as a number is that number. |
| `Requests.ClientEffect` | src/storage.c:77-91 | Executed, it appends the task under its digest, drops the oldest entry of the typed key, or sets that entry's status, and touches no other key. |
| `Requests.CheckpointIsServed` | src/storage.c:100-106 | A checkpoint received over a connection is the request that rebuilds the exported table. |

## Left out

- Sockets, accept loops, threads, fork and exec, signals, sleeps, file opening and configuration: a connection is a byte stream with arbitrary chunking, a send arrives or is lost, a server crashes or is started.
- src/client.c but for the messages it prints, console output and enum-to-string functions: clients are sources of requests, and the rest has no protocol role.
- SHA-1 keys (src/storage.c:23-46): the key is a field of the addition, any 64-bit number.
- `hash_table_get` and `hash_table_get_all`: formatting of output buffers.
- The periodic timing and the exit handshake of the checkpoint thread (src/chkpt.c:126-191), and write failures: a stop is one step. In the runs a shipped checkpoint is the table at that moment and an arriving one is its image; `Transfer` joins the two.
- Memory exhaustion and reclamation, mutex errors, read errors other than EINTR, failures between connecting and writing.
- 64-bit wrap-around of the size counter and task buffers over 1024 bytes: lengths are unbounded.
- What copying a negative number of payload bytes does to the process: `Transfer` reports it as an outcome of its own.
- Task, date and address texts that fill their buffers to the last byte and so lose their NUL (src/server.c:150-170): what is read behind them.
- Data races finer than the steps: requests arriving, role changes and worker turns are atomic, except in `Quiescence`, where the worker's guard, dequeue and execution are apart.
- Reordering of commands on their way from a factory to its server: commands are handled in order per factory.
- Elections with fewer than three replicas, where the source reads node entries it has not filled: the model puts a default peer there.
- Fault detector messages (src/replication_manager.c:146-184, src/replication_manager.c:686-705): a report is a replica and a state.
- `server_state` of a node and `handle_current_state`: display only.
- HashTable.HashTable.Modify: uses the advancing search, since the loop as written does not return when another key heads the bucket.
- Storage.HandleStorage: inherits the advancing search from the modification.
- HashTable.Search: is the advancing walk the lookup is meant to be; Table.AsWrittenReturnsIff says what the loop as written does.
- ActiveRecovery.AlwaysRecovered: assumes promptly worked off commands, as do Bystander, Recovering, OwnCommands, RecoveryReport and QuietWhenShipping; ActiveRuns.TimelyRunsRecover and ReturningRuns.ReturningRunsReturn are the statements for commands in flight.
- RecoveredTable.RecoveredAgreesIff: assumes promptly worked off commands, and that the images reach the recovered replica before any later request, as does RestartedPrimaryForgets; RecoveredRuns.RecoveredAgreesInRunsIff is the statement without these premises.
- ShippedImages.FailoverOnShipped: does not say which server shipped the table, or that it is its latest, since a checkpoint may arrive late, again or not at all.
