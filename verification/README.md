# Hera: a verified model of the connection multiplexer's core

Hera keeps a pool of worker processes, each holding one database session, and lends them to client
connections. This project models the parts of Hera that hold state or speak a protocol, and proves what
they keep over every run.

| file | what it models |
|---|---|
| `RingQueue.dfy` | the growable circular queue of free workers |
| `PoolSpec.dfy`, `WorkerPool.dfy` | the worker pool: tickets, returns, restarts, resizing, the lifespan check |
| `CmdProcessor.dfy` | the worker's transaction state and the end-of-response (EOR) codes it sends |
| `Protocol.dfy` | the request-id protocol between the mux and a worker, as steps of both ends, the channel and the recovery signal between |
| `ProtocolOrder.dfy` | the order in which that worker works the commands off |
| `WorkerClient.dfy` | the mux's end of one worker: reading responses, counting commands, recovery |
| `Recovery.dfy` | the protocol's result carried through the bytes of an EOR to the recovery loop |
| `Taf.dfy`, `TafVerdicts.dfy` | transparent failover: the response filter, the dispatch over two pools, and what it means for each worker |
| `ShardMap.dfy` | loading the map from key buckets to shards |
| `ShardingSpec.dfy`, `Sharding.dfy`, `ShardingVerdicts.dfy` | routing a request to a shard, and the verdicts read off the request alone |
| `CalRingBuffer.dfy`, `CalSpec.dfy`, `CalSocketHandler.dfy` | the CAL log pipeline from messages to the daemon's byte stream |
| `MySQLInts.dfy`, `MySQLPackets.dfy` | MySQL integers and packets |
| `Netstring.dfy` | the command netstring |
| `StateLog.dfy` | connection counting in the state log |
| `Seqs.dfy`, `Bytes.dfy`, `Codes.dfy` | shared facts on sequences, bytes, decimal notation and readers; shared codes |

Code that changes objects is a class with methods. Each method is proved against a function on a plain
value, and the lemmas are about those functions and about runs of them. A section that holds the pool lock
is one step. Database results, clocks, signals, random draws, socket results and configuration are inputs,
so every statement holds for all of them. `dafny verify dfyconfig.toml` checks everything.

## Results that differ from what the source intends

Where a property fails for the code, the code is kept, a lemma shows a failing input or run, and another
lemma says exactly when the property holds.

- **Request ids.** The mux takes a worker back too early after 2^16 unanswered commands
  (`ProtocolRuns.WrapFoolsTheMux`), and when a drained failed read is counted as a command
  (`ProtocolRuns.ReadErrorFoolsTheMux`; this needs a log level below Warning, because logging the failed read
  looks into a missing packet and ends the worker, worker/shared/workerservice.go:266-269).
  `Protocol.AcceptedMeansQuiet` gives the exact condition.
- **Late signal.** The answer to the last command can overtake the recovery signal. The worker taken back then
  drains commands of its next client (`ProtocolRuns.LateSignalAwaitsNextClient`).
  `ProtocolRuns.NextCommandsAreKept` says exactly when they are kept.
- **Transaction codes.** A worker answers "in transaction" although no statement ran in one exactly when
  `CmdProcessors.Overstates` holds (part of `CmdProcessors.CommandKeeps`); a plain statement is enough
  (`CmdProcessors.PlainStatementOverstates`). It never errs the other way.
- **Tickets.** A free worker is dropped exactly when the ticket drawn for it is in use
  (`PoolProofs.DispatchKeeps`), as in the run of `PoolProofs.TicketClashLosesWorker`.
- **Failover on database errors.** The response filter recognises the retriable error codes in a whole
  netstring (`Taf.WholeIsRecognised`). Its caller, however, hands it responses without their first byte
  (lib/coordinator.go:910), which never parse (`Taf.StrippedIsPlain`). So a retry happens after a timeout
  without any response and in no other case (`Taf.OnlySilentTimeoutsRetry`).
- **Waiting fallback worker.** It is recovered under the primary's pool and ticket
  (`Taf.FallbackWorkerGoesAstray`, in general `TafVerdicts.WaitingFallbackSettles`); in all other cases every
  worker gets its due (`Taf.DealsAreDue`, spelled out in `TafVerdicts.SessionSettles`).
- **Shard -1.** A key in a flagged bucket inside a transaction leaves the session on shard -1
  (`ShardingProofs.FlaggedBucketLeaksShard`), and so does a transaction that a held worker begins after the
  shard was reset (`ShardingProofs.BeginningLeaksShard`). A set shard is then refused but remembered, and a
  request without key is accepted for shard -1, where the table of pools has no entry (lib/workerbroker.go:224).
  Both runs go on after the connection was closed (lib/coordinator.go:356, lib/coordinator.go:451), so the last
  requests must have been read ahead (lib/connectionhandler.go:263) or come in one composite request.
  `ShardingProofs.AcceptedInRange` gives the exact condition for one call, `ShardingProofs.SessionRoutesInRange`
  for whole sessions; with one shard it cannot happen (`ShardingProofs.OneShardRoutesInRange`).
- **Requests without key under the whitelist.** They are meant for shard 0 (lib/coordinatorsharding.go:404-413), and
  the check against a transaction treats them so. The session's shard, by which the worker is chosen, is left
  alone, so they go to the shard of the last key (`ShardingVerdicts.KeylessFollowsKeyed`): to shard 0 exactly when
  the session stands there (`ShardingVerdicts.SoftNoKeyRoutes`).
- **Connection total.** With several shards, idle and assigned connections count once per shard
  (`StateLogs.OneConnectionCountsTwice`, exact in `StateLogs.TotalConnections`).
- **Negative commands.** A netstring with a negative command does not read back
  (`Netstrings.NetstringReadsBack`).
- **Oversized packets.** A packet built from more than 2^24 - 1 bytes does not read back
  (`MySQLPackets.PacketReadsBack`); splitting never builds one.

## Model

| member | source | states |
|---|---|---|
| `RingQueues.RingQueue.constructor` | lib/queue.go:46-49 | a new queue stands for the empty sequence |
| `RingQueues.RingQueue.Len` | lib/queue.go:52-57 | the number of elements through any wraparound |
| `RingQueues.RingQueue.Double` | lib/queue.go:59-73 | doubling keeps the sequence and the membership map |
| `RingQueues.RingQueue.Reserve` | lib/queue.go:81-83 | afterwards one more element fits below the capacity, and the sequence is the same |
| `RingQueues.RingQueue.Push` | lib/queue.go:76-87 | appends an element that is not there; answers whether it did |
| `RingQueues.RingQueue.PushFront` | lib/queue.go:90-101 | prepends an element that is not there; answers whether it did |
| `RingQueues.RingQueue.Poll` | lib/queue.go:104-112 | takes the first element, or nil from an empty queue |
| `RingQueues.RingQueue.Decr` | lib/queue.go:114-116 | the position before, around the ring |
| `RingQueues.RingQueue.Incr` | lib/queue.go:118-120 | the position after, around the ring |
| `RingQueues.RingQueue.Shift` | lib/queue.go:124-129 | everything behind the gap moves one slot towards the head, everything before it stays |
| `RingQueues.RingQueue.RemoveAt` | lib/queue.go:122-131 | the sequence without that one position; membership map kept exact |
| `RingQueues.RingQueue.Remove` | lib/queue.go:134-144 | deletes the element if it is there; answers whether it was |
| `RingQueues.RingQueue.Visit` | lib/queue.go:151-156 | one test of the walk: the element goes exactly when it satisfies the predicate, and the walk continues at the right slot |
| `RingQueues.RingQueue.ForEachRemove` | lib/queue.go:147-159 | terminates, tests every element once in order, leaves the order-preserving filter, counts the removed ones |
| `PoolSpec.FirstUsable` | lib/workerpool.go:570-588 | the first free worker with a status above init: nothing before it can serve, it can |
| `PoolProofs.DispatchKeeps` | lib/workerpool.go:228-443 | handing out keeps the invariant; nobody is lost unless the drawn ticket is in use, and then exactly that worker; a failed get changes nothing |
| `PoolProofs.TakeBackKeeps` | lib/workerpool.go:449-565 | returning keeps the invariant; only an accepted return changes anything, and it loses nobody it does not terminate |
| `PoolProofs.ExitKeeps` | lib/workerpool.go:139-188 | an exited worker leaves the queue and its ticket, nobody else does |
| `PoolProofs.EnterKeeps` | lib/workerpool.go:192-220 | a ready worker joins the end of the queue and nobody leaves |
| `PoolProofs.SetSizeKeeps` | lib/workerpool.go:595-644 | resizing keeps the invariant and lets go only of free workers with ids beyond the new size |
| `PoolProofs.SweepKeeps` | lib/workerpool.go:720-792 | the lifespan check keeps the invariant, the tickets and everyone it does not terminate |
| `PoolProofs.SweepTakesExpired` | lib/workerpool.go:749-783 | it terminates expired workers only and clears exactly their expiry |
| `PoolProofs.StepKeeps` | lib/workerpool.go:139-792 | every step keeps checkout tickets equal to dispatched workers, tickets non-empty and distinct, checked-out workers out of the queue; every worker stays accounted for |
| `PoolProofs.RunKeeps` | lib/workerpool.go:139-792 | the same over every run |
| `PoolProofs.FreshDrawsDropNobody` | lib/workerpool.go:417-427 | no run whose draws are unused tickets drops a worker |
| `PoolProofs.NobodyIsLost` | lib/workerpool.go:139-792 | from start-up, every worker that ever got ready is free, checked out, or was let go by terminating, exiting or a ticket clash |
| `PoolProofs.StepBalances` | lib/workerpool.go:449-478 | one step: hand-outs equal accepted returns, cancelled tickets and tickets still out |
| `PoolProofs.RunBalances` | lib/workerpool.go:449-478 | the same over every run, per worker and per (worker, ticket) pair |
| `PoolProofs.ReturnedAtMostOnce` | lib/workerpool.go:468-478 | accepted returns of a pair never exceed its hand-outs, and no worker has two holders |
| `PoolProofs.ReturnTells` | lib/workerpool.go:449-565 | a return is accepted exactly under the ticket the worker is out on and outside recovery; the worker is then free again exactly when it is not beyond a shrinking pool, its lifespan is not over and it is below its limit, first in the queue under lifo and last otherwise; nothing else moves in the queue |
| `PoolProofs.ReturnAdjusts` | lib/workerpool.go:486-540 | an accepted return changes this worker only: its expiry when that is why it goes, its limit only to a value above three quarters of the configured one |
| `PoolProofs.LimitIsPicked` | lib/workerpool.go:515-527 | the limit moves exactly when it is more than a quarter away from the configured one, and then into the top quarter below that |
| `PoolProofs.HandOutTells` | lib/workerpool.go:228-443 | the worker handed out is the first one in the queue that can serve; it is registered under the drawn number, and the ones skipped go behind the rest |
| `PoolProofs.ExitTells` | lib/workerpool.go:139-188 | an exit frees the queue entry and the ticket of this worker only, and counts down exactly beyond the desired size |
| `PoolProofs.ReadyTells` | lib/workerpool.go:192-220 | a ready worker is last in the queue and alone in its slot; all other slots stay |
| `PoolProofs.ResizeTells` | lib/workerpool.go:595-644 | growing keeps every slot and adds empty ones; shrinking terminates exactly the free workers beyond the new size |
| `PoolProofs.SweepExactly` | lib/workerpool.go:720-792 | the lifespan check terminates a worker if and only if some slot holds it free and due, and takes exactly the terminated ones out of the queue |
| `PoolProofs.SecondDrawLoses` | lib/workerpool.go:417-427 | two draws of one ticket: the first worker is handed out, the second dropped |
| `PoolProofs.TicketClashLosesWorker` | lib/workerpool.go:417-427 | a run from start-up in which a ready worker ends up neither free nor checked out nor told to stop |
| `WorkerPools.WorkerPool.constructor` | lib/workerpool.go:88-112 | the pool right after start-up |
| `WorkerPools.WorkerPool.GetActiveWorker` | lib/workerpool.go:570-588 | the first usable worker, leaving the suffix and then the skipped prefix; or nil with the queue unchanged |
| `WorkerPools.WorkerPool.AlreadyDispatched` | lib/adaptivequemgr.go:396-411 | true exactly when the worker has a ticket or some worker has this one |
| `WorkerPools.WorkerPool.GetWorker` | lib/workerpool.go:228-443 | the locked section does what the dispatch function says |
| `WorkerPools.WorkerPool.ReturnWorker` | lib/workerpool.go:449-565 | the locked section does what the return function says, including every refusal |
| `WorkerPools.WorkerPool.Settle` | lib/workerpool.go:486-540 | which returned workers are terminated and what their limits become |
| `WorkerPools.WorkerPool.RestartWorker` | lib/workerpool.go:139-188 | clears ticket, registration and queue entry of an exited worker |
| `WorkerPools.WorkerPool.WorkerReady` | lib/workerpool.go:192-220 | records the worker and queues it |
| `WorkerPools.WorkerPool.Resize` | lib/workerpool.go:595-644 | grows the table, or filters the queue and names the terminated workers |
| `WorkerPools.WorkerPool.CheckWorkerLifespan` | lib/workerpool.go:720-792 | the walk over all slots |
| `WorkerPools.WorkerPool.CheckSlot` | lib/workerpool.go:749-783 | one slot of it, decided as specified |
| `WorkerPools.WorkerPool.Runtime` | lib/adaptivequemgr.go:261-268 | the run time in wrap-around 32-bit milliseconds: start plus it is now |
| `WorkerPools.WorkerPool.GetWorkerToRecover` | lib/adaptivequemgr.go:240-299 | a dispatched worker with the longest run time above the threshold if any, its start time cleared; otherwise nothing changes |
| `CmdProcessors.CommandKeeps` | worker/shared/cmdprocessor.go:546-1059 | every command keeps "in transaction implies an open transaction", ends one only by a successful commit or rollback, says free only outside one, and overstates exactly when `Overstates` holds |
| `CmdProcessors.ExecuteKeeps` | worker/shared/cmdprocessor.go:688-857 | the same for execute, with its failure and panic exits |
| `CmdProcessors.EndKeeps` | worker/shared/cmdprocessor.go:1002-1059 | the same for commit and rollback |
| `CmdProcessors.FetchKeeps` | worker/shared/cmdprocessor.go:858-934 | the same for fetch |
| `CmdProcessors.QuietKeeps` | worker/shared/cmdprocessor.go:547-687 | the same for the commands that send no end of response |
| `CmdProcessors.AnswerTells` | worker/shared/cmdprocessor.go:771-850 | a counted result always claims a transaction; otherwise only inside one |
| `CmdProcessors.SessionSound` | worker/shared/cmdprocessor.go:546-1059 | the invariant and the request number in every state of every session |
| `CmdProcessors.SessionFree` | worker/shared/cmdprocessor.go:1110-1130 | in every session every EOR carries its request's number, and one that says free (or "more incoming") leaves the worker outside a transaction |
| `CmdProcessors.SessionTells` | worker/shared/cmdprocessor.go:546-1059 | in every session: a transaction is open if and only if a prepare began one since the last successful commit or rollback; the worker is in transaction if and only if, besides, a statement succeeded while it was open; a statement is there if and only if the last prepare succeeded |
| `CmdProcessors.CommandMoves` | worker/shared/cmdprocessor.go:546-1059 | what each single command does to the transaction, the statement and the in-transaction flag, by events |
| `CmdProcessors.TransactionIsReached` | worker/shared/cmdprocessor.go:582-584 | a session of a prepare and an execute that is in transaction |
| `CmdProcessors.AnswersOnce` | worker/shared/cmdprocessor.go:688-1059 | a command that ends well and answers sends exactly one end of response, last; the others send data or nothing |
| `CmdProcessors.ExecuteAnswers` | worker/shared/cmdprocessor.go:735-850 | an execute answers data exactly for a successful query, keeps rows or a result accordingly, and remembers a failure |
| `CmdProcessors.FetchAnswers` | worker/shared/cmdprocessor.go:858-934 | a fetch closes the rows, and sends data before its end exactly when there were any |
| `CmdProcessors.PlainStatementOverstates` | worker/shared/cmdprocessor.go:771-806 | a session in which preparing and executing a plain statement claims a transaction there is not |
| `CmdProcessors.StandingKeeps` | worker/shared/cmdprocessor.go:852-856 | an answer that leaves the transaction alone and says how it stands keeps everything |
| `CmdProcessors.CmdProcessor.ProcessCmd` | worker/shared/cmdprocessor.go:546-1059 | in every state with "in transaction implies an open transaction" that stays so, the frames sent say free only outside a transaction and carry this request's number, and the transaction is left only by a successful commit or rollback |
| `CmdProcessors.CmdProcessor.Branch` | worker/shared/cmdprocessor.go:546-1059 | fields, frames and outcome of each command, as the command function says |
| `CmdProcessors.CmdProcessor.ProcessPrepare` | worker/shared/cmdprocessor.go:555-599 | a transaction is opened only if the statement needs one and none is open; a failed prepare leaves the error for execute; nothing is sent |
| `CmdProcessors.CmdProcessor.ProcessBind` | worker/shared/cmdprocessor.go:600-687 | a bind that fails ends the session and closes the CAL transaction; without one it panics; without statement it is ignored |
| `CmdProcessors.CmdProcessor.ProcessExecute` | worker/shared/cmdprocessor.go:688-857 | without a statement the earlier error is answered, or the worker panics if there is none; unbound variables end the session |
| `CmdProcessors.CmdProcessor.RunStatement` | worker/shared/cmdprocessor.go:735-770 | the statement leaves rows or a result, and an open transaction counts from a success on |
| `CmdProcessors.CmdProcessor.AnswerFailure` | worker/shared/cmdprocessor.go:751-765 | a failed statement is answered with how the transaction stands |
| `CmdProcessors.CmdProcessor.AnswerSuccess` | worker/shared/cmdprocessor.go:766-770 | after a success the processor is in transaction exactly when it was or one is open |
| `CmdProcessors.CmdProcessor.AnswerExecute` | worker/shared/cmdprocessor.go:771-850 | a counted result is answered as in transaction, rows as data or with how the transaction stands |
| `CmdProcessors.CmdProcessor.ProcessFetch` | worker/shared/cmdprocessor.go:858-934 | rows go out before the closing EOR, which says how the transaction stands; a failed write ends the session without it |
| `CmdProcessors.CmdProcessor.ProcessColsInfo` | worker/shared/cmdprocessor.go:935-1001 | column data for open rows, silence without; never an EOR and no change of state |
| `CmdProcessors.CmdProcessor.ProcessEnd` | worker/shared/cmdprocessor.go:1002-1059 | success closes the transaction and says free, failure keeps it and says in transaction |
| `CmdProcessors.CmdProcessor.SendEor` | worker/shared/cmdprocessor.go:1110-1130 | the EOR frame, turned into "more incoming" when it says free while requests wait |
| `Protocol.StepKeeps` | worker/shared/workerservice.go:136-350 | every step of either end keeps the counters equal to the histories and every EOR in transit faithful: its number, what it says about the transaction, and whether a signal is still to come |
| `Protocol.ProcessedKeeps` | worker/shared/workerservice.go:195-225 | processing a command or the recovery's rollback keeps it |
| `Protocol.CountKeeps` | worker/shared/workerservice.go:191-192 | counting a received entry keeps it |
| `Protocol.RunKeeps` | worker/shared/workerservice.go:136-350 | the same over every interleaving |
| `Protocol.AcceptedMeansQuiet` | lib/workerclient.go:570-620 | when the mux accepts, the EOR answers its last command if and only if no phantom was counted (modulo the wrap) and fewer than 2^16 commands followed; then everything is consumed, nothing is in flight and no transaction is open |
| `Protocol.RecoveryIsSafe` | lib/workerclient.go:570-620 | without read errors and below the wrap, every accepted recovery leaves the worker quiet |
| `Protocol.NoPhantoms` | worker/shared/workerservice.go:238-281 | without read errors the worker counts nothing but commands |
| `ProtocolRuns.NextCommandsAreKept` | lib/workerclient.go:562-620 | after an accepted recovery whose EOR answers the last command, no later command is drained short of another recovery if and only if no signal is pending and none is being served; so it is when every signal was noticed before that EOR was sent |
| `ProtocolRuns.SteadyDrainsNothing` | worker/shared/workerservice.go:168-184 | a worker with no signal pending or being served drains nothing in any run without a new signal |
| `ProtocolRuns.UnsteadyTakesNext` | worker/shared/workerservice.go:311-350 | otherwise there is a run that drains the next command written |
| `ProtocolRuns.LateSignalAwaitsNextClient` | lib/workerclient.go:497-504 | a run in which the mux takes back a quiet worker that has not noticed the signal yet |
| `ProtocolRuns.WrapFoolsTheMux` | lib/workerclient.go:847-850 | a run in which a commit is answered and 2^16 commands later the stale EOR matches |
| `ProtocolRuns.ReadErrorFoolsTheMux` | worker/shared/workerservice.go:266-275 | a run in which a failed read that is not logged is drained and counted, and the mux accepts |
| `ProtocolOrder.CommandsInOrder` | worker/shared/workerservice.go:136-281 | in every run the worker works the commands off in the order in which the mux wrote them, none twice |
| `ProtocolOrder.NoneLeftOut` | worker/shared/workerservice.go:136-281 | unless a read fails or a recovery drains the channel, those worked off and those it holds are all that reached the wire |
| `ProtocolOrder.StepHolds` | worker/shared/workerservice.go:238-281 | a step that loses nothing takes the oldest command or none and adds the newest |
| `ProtocolOrder.StepLoses` | worker/shared/workerservice.go:266-275 | a failed read or a drained entry brings nothing out of order |
| `WorkerClients.WorkerClient.DoRead` | lib/workerclient.go:747-844 | nothing is lost or reordered: the channel plus the buffered rest is the response stream of the frames read, one end per EOR that is not "more incoming"; the worker's status follows the frames |
| `WorkerClients.WorkerClient.OnFrame` | lib/workerclient.go:781-842 | one frame adds exactly its meaning |
| `WorkerClients.WorkerClient.Interpret` | lib/workerclient.go:781-842 | the switch over one frame: its tokens behind the earlier ones, and the status it leaves |
| `WorkerClients.WorkerClient.OnStop` | lib/workerclient.go:766-774 | a frame that ends the reading sends the buffered bytes and nothing else |
| `WorkerClients.WorkerClient.OnEor` | lib/workerclient.go:783-818 | an EOR adds its response bytes and its end, and sets the status |
| `WorkerClients.WorkerClient.FlushPending` | lib/workerclient.go:770-773 | buffered bytes go out as one message |
| `WorkerClients.EorReadsBack` | worker/shared/cmdprocessor.go:1110-1130 | the mux reads back the code, number and response the worker packed |
| `WorkerClients.StreamCarries` | lib/workerclient.go:747-844 | the stream of any frames holds the serialized data frames and the responses in the EORs, one after the other, and one end per EOR that announces one |
| `WorkerClients.StatusTells` | lib/workerclient.go:781-842 | the worker counts as finished exactly when the last frame that speaks of it is a free EOR |
| `WorkerClients.WorkerClient.Write` | lib/workerclient.go:847-870 | the counter moves by the commands written modulo 2^16, even if the write fails; a failed write terminates the worker |
| `WorkerClients.WorkerClient.Recover` | lib/workerclient.go:528-624 | one recovery at a time, none for an idle worker; the worker is given back under the recovery's ticket only on a free EOR with the mux's own number, and terminated on a timeout; the status is the reading routine's last word unless it was given back |
| `WorkerClients.WorkerClient.AwaitFree` | lib/workerclient.go:570-623 | the recovery loop over every sequence of wake-ups, with the reading routine writing the status in between |
| `Recoveries.FrameTells` | worker/shared/cmdprocessor.go:1110-1130 | the mux reads from an EOR the response bytes and then the end the worker meant |
| `Recoveries.StreamTells` | lib/workerclient.go:747-844 | over any stream of EORs the responses are read whole, one after the other, and the ends are those sent, in order, without the "more incoming" ones |
| `Recoveries.RecoveredMeansQuiet` | lib/workerclient.go:591-616 | in every interleaving the recovery loop takes the worker back if and only if the protocol accepts the EOR, and then the worker is quiet if the EOR answers the last command |
| `Taf.TafResponsePreproc.Write` | lib/coordinatortaf.go:57-97 | the filter's flags and what reaches the client after one reply |
| `Taf.FilterMeaning` | lib/coordinatortaf.go:57-97 | over every run of replies exactly `Forwarded` reaches the client, and the flags tell whether anything did (so data sent implies ok) |
| `Taf.AllPass` | lib/coordinatortaf.go:63-92 | once data was sent every reply is forwarded |
| `Taf.SilentRun` | lib/coordinatortaf.go:63-92 | after a retriable error only a different SQL error ends the silence |
| `Taf.Coordinator.AskPrimary` | lib/coordinator.go:905-917 | a request through the filter |
| `Taf.Coordinator.AskDirectly` | lib/coordinator.go:905-917 | a request straight to the client |
| `Taf.Coordinator.TryPrimary` | lib/coordinatortaf.go:173-300 | the first leg falls through if and only if nothing was forwarded and the failure is worth a retry |
| `Taf.Coordinator.PutBack` | lib/coordinatortaf.go:238-266 | returned, recovered, recovered as saturated, or left when the worker failed |
| `Taf.Coordinator.TryFallback` | lib/coordinatortaf.go:315-354 | the second leg, with its misdirected wait exit |
| `Taf.Coordinator.LastPool` | lib/coordinatortaf.go:311-361 | the second leg or the fallback pool's refusal |
| `Taf.Coordinator.TwoPools` | lib/coordinatortaf.go:168-361 | both legs in turn |
| `Taf.Coordinator.DispatchRequest` | lib/coordinator.go:558-700 | without a healthy fallback: the pool asked, the client's bytes, the worker's fate and the error of a usual dispatch |
| `Taf.Coordinator.DispatchTAFSession` | lib/coordinatortaf.go:125-362 | for every answer of every pool: the client's bytes, the pools asked in order, each worker's fate and the error |
| `Taf.OneAnswerOnly` | lib/coordinatortaf.go:173-320 | when the fallback is tried nothing of the primary's answer reached the client |
| `Taf.DealsAreDue` | lib/coordinatortaf.go:315-354 | every granted worker gets its due under its own pool and ticket if and only if the fallback does not wait |
| `Taf.FallbackWorkerGoesAstray` | lib/coordinatortaf.go:333 | the worker that does not |
| `Taf.StrippedIsPlain` | lib/coordinator.go:910 | a netstring without its first byte is never recognised as an error |
| `Taf.FirstReplyIsPlain` | lib/coordinator.go:905-917 | so the first reply the filter gets is never an error |
| `Taf.WholeIsRecognised` | lib/coordinatortaf.go:63-83 | with it, exactly the listed codes are retriable |
| `Taf.OnlySilentTimeoutsRetry` | lib/coordinatortaf.go:238-300 | with messages as workers send them, empty ones included, a retry happens if and only if a timeout came before any response |
| `TafVerdicts.SessionSettles` | lib/coordinatortaf.go:125-362 | on the deals and the answers alone: a worker is returned if and only if its answer ended well without waiting, held if and only if it waits where that is allowed, recovered as saturated if and only if it was killed for that, left alone if and only if it failed, recovered otherwise; at most once each, under its own pool and ticket, and nobody else |
| `TafVerdicts.WaitingFallbackSettles` | lib/coordinatortaf.go:333 | the one exception: the fallback worker is not dealt with under its own grant but recovered last, under the primary pool and its ticket; the primary worker is settled |
| `TafVerdicts.AskedTells` | lib/coordinatortaf.go:125-320 | which pools are asked, from the configuration and the answers: the fallback after the primary exactly when that timed out without any response |
| `TafVerdicts.UsesAreAsked` | lib/coordinatortaf.go:125-362 | the workers used are those of the pools asked, in order |
| `TafVerdicts.SuccessIsSettled` | lib/coordinatortaf.go:125-362 | a session succeeds if and only if the last worker asked is returned or held, unless the fallback denied one in between |
| `TafVerdicts.VerdictTells` | lib/coordinatortaf.go:125-362 | otherwise the error is that worker's, the denying pool's, or the missing pool |
| `TafVerdicts.ForwardedOnwards` | lib/coordinatortaf.go:57-97 | the client gets the replies from the first one on that is a final error, or is first and no error; whole and in order |
| `TafVerdicts.AtoiReadsDecimal` | lib/util.go:86-97 | a decimal number before anything but a digit is read as itself |
| `TafVerdicts.CodeIsRecognised` | lib/coordinatortaf.go:63-83 | an error reply that starts with its code is worth a retry exactly when that code is listed |
| `ShardMaps.ShardingCfg.LoadMap` | lib/shardingcfg.go:128-199 | the map becomes the one the rows determine, stored or skipped; the first unreadable row stops the load and leaves it alone; the first gap is reported and all are filled; every bucket in range or flagged |
| `ShardMaps.ShardingCfg.ReadRows` | lib/shardingcfg.go:131-167 | each bucket holds its first row's record; reading stops at the first bad row |
| `ShardMaps.ShardingCfg.FillGaps` | lib/shardingcfg.go:168-192 | gaps become flagged records, the first gap is found, and sameness is exact |
| `ShardMaps.OneTable` | lib/shardingcfg.go:131-192 | the rows determine the map |
| `ShardMaps.LoadedIsRoutable` | lib/shardingcfg.go:155-181 | every bucket is set and flagged if and only if its shard does not exist |
| `ShardMaps.BucketTells` | lib/shardingcfg.go:131-164 | a bucket has the shard of its first row if that exists, and is marked down for exactly the uses that row marks |
| `ShardMaps.GapTells` | lib/shardingcfg.go:168-182 | a bucket without row is flagged and marked down for nothing |
| `ShardMaps.SameIsEqual` | lib/shardingcfg.go:183-198 | skipping the store when nothing differs cannot be seen |
| `ShardingSpec.RecsFor` | lib/coordinatorsharding.go:179-245 | records exist if and only if values do, and the first belongs to the first value |
| `ShardingSpec.ValuesFor` | lib/coordinatorsharding.go:207-214 | cutting to one value keeps the first |
| `ShardingProofs.WalkKeeps` | lib/coordinatorsharding.go:309-386 | what walking the sub-commands can do to the shard state, and that accepted values have records |
| `ShardingProofs.KeysHaveRecords` | lib/coordinatorsharding.go:432-434 | in every mode, keys that reach verification have records, so the look at the first one is safe |
| `ShardingProofs.PreprocessedKeeps` | lib/coordinatorsharding.go:291-429 | a request keeps the set shard, transaction and worker and remembers where it started |
| `ShardingProofs.WritesStayOnShard` | lib/coordinatorsharding.go:501-550 | in every mode, a write accepted inside a transaction stays on the transaction's shard |
| `ShardingProofs.AcceptedInRange` | lib/coordinatorsharding.go:291-497 | by the map, an accepted request goes to an existing shard if and only if no shard was set or the current one exists |
| `ShardingProofs.RequestKeeps` | lib/coordinatorsharding.go:291-429 | every request keeps the session invariant unless it is refused over a flagged bucket inside a transaction |
| `ShardingProofs.MissLeaks` | lib/coordinatorsharding.go:432-452 | and such a request leaves the transaction on a missing shard |
| `ShardingProofs.AskStep` | lib/coordinator.go:558-700 | the same with the dispatch, the relief of an idle worker and the cross-shard read that restores the shard |
| `ShardingProofs.StepKeeps` | lib/coordinator.go:650-681 | every step of a session keeps the invariant, except exactly the straying ones, which put a transaction on a missing shard; steps are set shards, requests, unrouted commands, messages of the worker and map reloads |
| `ShardingProofs.RunKeeps` | lib/coordinatorsharding.go:102-497 | a session without straying step routes every accepted request to an existing shard |
| `ShardingProofs.SessionRoutesInRange` | lib/coordinatorsharding.go:102-497 | from the start; and with several shards exactly: no step strays if and only if the session, cut off anywhere, withstands every set shard followed by a request without key |
| `ShardingProofs.LeakyIsProbed` | lib/coordinatorsharding.go:114-124 | in a transaction on a missing shard a set shard is refused but remembered, and a request without key is accepted |
| `ShardingProofs.SmoothProbes` | lib/coordinatorsharding.go:102-497 | a set shard and a request without key never make a session stray |
| `ShardingProofs.StrayIsProbed` | lib/coordinatorsharding.go:102-497 | a straying session is found out by them right after the straying step |
| `ShardingProofs.OneShardRoutesInRange` | lib/coordinatorsharding.go:102-497 | with one shard every session routes in range |
| `ShardingProofs.BeginningMovesShard` | lib/coordinator.go:949-955 | a held worker that begins a transaction after the shard was reset |
| `ShardingProofs.BeginningLeaksShard` | lib/coordinator.go:949-955 | a whole session without flagged bucket in which a request is accepted for shard -1 |
| `ShardingProofs.FlaggedKeyMovesShard` | lib/coordinatorsharding.go:245-246 | a refused key in a flagged bucket leaves shard -1 |
| `ShardingProofs.FlaggedBucketLeaksShard` | lib/coordinatorsharding.go:102-497 | a whole session in which that happens |
| `ShardingVerdicts.WalkFindsBinds` | lib/coordinatorsharding.go:309-386 | without a shard-key command, the values found are the payloads right behind the binds of the key, in order |
| `ShardingVerdicts.WalkFindsKey` | lib/coordinatorsharding.go:330-380 | with one, they are the values of the first, whatever came before |
| `ShardingVerdicts.WalkWithShardSet` | lib/coordinatorsharding.go:309-386 | with a shard set, the first key of either kind is refused |
| `ShardingVerdicts.OneKeyRoutes` | lib/coordinatorsharding.go:387-550 | the verdict on one key, and the shard, from its record and the session: flagged, marked down for this use, out of the transaction, or accepted |
| `ShardingVerdicts.BindRoutes` | lib/coordinatorsharding.go:291-429 | a request with one bind of the key goes to the shard of the value behind it, or is refused for what that bucket or the transaction says |
| `ShardingVerdicts.KeyRoutes` | lib/coordinatorsharding.go:291-429 | the same for the one value of a shard-key command |
| `ShardingVerdicts.ManyKeysAreRefused` | lib/coordinatorsharding.go:432-497 | several keys are refused, with a hangup exactly when the first one's bucket is flagged |
| `ShardingVerdicts.NoKeyRoutes` | lib/coordinatorsharding.go:404-497 | without key: refused when no shard is set, otherwise by the set shard |
| `ShardingVerdicts.KeysWithShardSet` | lib/coordinatorsharding.go:309-386 | with a shard set, any key is refused with a hangup |
| `ShardingVerdicts.SetShardTells` | lib/coordinatorsharding.go:102-137 | a shard in range is set, unless it would move a transaction: then it is refused and remembered; any other value changes nothing |
| `ShardingVerdicts.SoftKeyTells` | lib/coordinatorsharding.go:179-251 | under the whitelist or without a map: a null key goes to shard 0, a listed key where its entry says if that shard exists, others by the map |
| `ShardingVerdicts.SoftNoKeyRoutes` | lib/coordinatorsharding.go:404-429 | there, a request without key is accepted for the shard the session stands on, except a write in a transaction elsewhere than on shard 0 |
| `ShardingVerdicts.KeylessFollowsKeyed` | lib/coordinatorsharding.go:404-413 | a listed key on shard 1, then a request without key: it goes to shard 1 |
| `Shardings.Coordinator.constructor` | lib/coordinator.go:75 | a session starts with no shard set, on shard 0 |
| `Shardings.Coordinator.ProcessSetShardID` | lib/coordinatorsharding.go:102-137 | the shard state and answer, with the refusals that do and do not change it |
| `Shardings.Coordinator.CollectRecs` | lib/coordinatorsharding.go:182-244 | the loop over the values, with the whitelist and single-value exits |
| `Shardings.Coordinator.ComputeLogicalShards` | lib/coordinatorsharding.go:179-251 | records, values and shard of the keys |
| `Shardings.Coordinator.Discover` | lib/coordinatorsharding.go:309-386 | the loop over the sub-commands |
| `Shardings.Coordinator.PreprocessSharding` | lib/coordinatorsharding.go:291-429 | the whole decision and the state it leaves |
| `Shardings.Coordinator.VerifyValidShard` | lib/coordinatorsharding.go:432-497 | bad mappings, missing or multiple keys, marked-down buckets |
| `Shardings.Coordinator.VerifyXShard` | lib/coordinatorsharding.go:501-550 | cross-key and cross-shard writes |
| `CalRingBuffers.RingBuffer.constructor` | cal/calringbuffer.go:28-34 | an empty buffer of the given capacity |
| `CalRingBuffers.RingBuffer.TailFollowsHead` | cal/calringbuffer.go:53-160 | the tail is the head plus the bytes in use, modulo the capacity |
| `CalRingBuffers.RingBuffer.FreeCapacity` | cal/calringbuffer.go:40-42 | what still fits |
| `CalRingBuffers.RingBuffer.Clear` | cal/calringbuffer.go:44-48 | the empty FIFO |
| `CalRingBuffers.RingBuffer.WriteData` | cal/calringbuffer.go:53-96 | appends all or nothing; the wraparound recursion ends |
| `CalRingBuffers.RingBuffer.CopyData` | cal/calringbuffer.go:98-129 | reads a prefix of the FIFO and changes nothing |
| `CalRingBuffers.RingBuffer.RemoveData` | cal/calringbuffer.go:136-160 | drops a prefix of the FIFO |
| `CalFrames.Big32ReadsBack` | cal/calsockethandler.go:158-165 | the 4-byte header fields read back |
| `CalFrames.DecodeOne` | cal/calsockethandler.go:158-165 | a frame in front of any bytes decodes to itself |
| `CalFrames.DecodePrefix` | cal/calsockethandler.go:158-199 | any prefix of a frame stream decodes to a prefix of exactly those frames, the whole stream to all |
| `CalFrames.HeaderBytes` | cal/calsockethandler.go:158-165 | the header is thread id, connect time and body length, each four bytes, high byte first |
| `CalRuns.MessageIsFramed` | cal/calsockethandler.go:171-199 | a message that fits is framed unchanged, with the thread id from its last four bytes, low byte first |
| `CalRuns.LongMessageIsCut` | cal/calsockethandler.go:171-199 | a longer one is cut to 4096 bytes, the last two of them carriage return and line feed |
| `CalRuns.ClosedKeeps` | cal/calsockethandler.go:320-328 | closing starts the next stream with the label and keeps the stream invariant |
| `CalRuns.DialedKeeps` | cal/calsockethandler.go:371-416 | so does dialing, whatever comes of it |
| `CalRuns.CompletedKeeps` | cal/calsockethandler.go:269-318 | so does completing or retrying a connection |
| `CalRuns.AddedKeeps` | cal/calsockethandler.go:277-283 | so does queueing or dropping a message |
| `CalRuns.FlushedKeeps` | cal/calsockethandler.go:285-301 | so does a full, partial or failed send |
| `CalRuns.StepKeeps` | cal/calsockethandler.go:245-264 | so does every turn of the handler's loop |
| `CalRuns.RunKeeps` | cal/calsockethandler.go:245-264 | so does every run |
| `CalRuns.DaemonSeesWholeFrames` | cal/calsockethandler.go:245-337 | on every connection of every run the daemon gets a prefix of the label and whole queued frames, decodes a prefix of them, and over all connections the frames are submitted ones in order, each at most once |
| `CalRuns.RunSubmits` | cal/calsockethandler.go:245-264 | the submitted frames of a run are its messages, each once, in order |
| `CalRuns.QueuedIfFits` | cal/calsockethandler.go:277-283 | a message is put behind the frames of the current connection if and only if it fits with the bytes not sent yet; otherwise it is lost and the loss is noted |
| `CalRuns.SendDelivers` | cal/calsockethandler.go:285-301 | a send delivers as many of the unsent bytes as it takes |
| `CalRuns.SendOfAllDelivers` | cal/calsockethandler.go:285-301 | one that takes everything leaves the daemon with all frames of the connection, and it decodes exactly those |
| `CalRuns.FailedSendCloses` | cal/calsockethandler.go:293-297 | a failed send ends the connection; the next begins with the label alone |
| `CalRuns.ConnectTells` | cal/calsockethandler.go:269-318 | completing a connection: open exactly when a dial was due and answered; what was queued stays unless a pending dial is refused |
| `CalRuns.RootTells` | cal/calsockethandler.go:245-264 | a new root transaction changes nothing unless something was lost; then the connection ends and a new one begins |
| `CalRuns.DaemonGetsEverything` | cal/calsockethandler.go:245-337 | in every run without loss and without a refused pending dial, all messages are queued behind the label of the one connection; once all was sent the daemon decodes the label and every message, in order |
| `CalSocketHandlers.ClientMessage.ConstructCalMessage` | cal/calsockethandler.go:171-199 | thread id, length and body of a message, cut to the buffer |
| `CalSocketHandlers.ClientMessage.ToBytes` | cal/calsockethandler.go:158-165 | the bytes of the frame |
| `CalSocketHandlers.SocketHandler.constructor` | cal/calsockethandler.go:208-238 | the handler after init |
| `CalSocketHandlers.SocketHandler.Start` | cal/calsockethandler.go:227-234 | first dial, label queued |
| `CalSocketHandlers.SocketHandler.ConnectToCaldaemon` | cal/calsockethandler.go:371-416 | socket status and connection for each dial result |
| `CalSocketHandlers.SocketHandler.CloseConnection` | cal/calsockethandler.go:320-328 | socket closed, buffer cleared, label queued again |
| `CalSocketHandlers.SocketHandler.CompleteConnection` | cal/calsockethandler.go:269-318 | completes, retries or gives up a connection |
| `CalSocketHandlers.SocketHandler.AddDataToRingBuffer` | cal/calsockethandler.go:277-283 | a message is queued whole or marked lost |
| `CalSocketHandlers.SocketHandler.Flush` | cal/calsockethandler.go:285-301 | what the daemon took leaves the buffer; a failed send closes |
| `CalSocketHandlers.SocketHandler.Handle` | cal/calsockethandler.go:245-264 | one turn of the loop is one step of the run |
| `MySQLInts.WriteFixedLenInt` | utility/encoding/mysqlpackets/mysqlpackets.go:653-687 | writes the l low bytes, advances by l, touches nothing else |
| `MySQLInts.ReadFixedLenInt` | utility/encoding/mysqlpackets/mysqlpackets.go:769-798 | the value of the l bytes as a Go int |
| `MySQLInts.LittleReadsBack` | utility/encoding/mysqlpackets/mysqlpackets.go:653-798 | l bytes keep the number modulo 256^l |
| `MySQLInts.FixedReadsBack` | utility/encoding/mysqlpackets/mysqlpackets.go:653-798 | fixed integers read back n modulo 256^l, 8-byte ones n itself |
| `MySQLInts.WriteLenEncInt` | utility/encoding/mysqlpackets/mysqlpackets.go:694-717 | writes the encoding, advances by its width, touches nothing else |
| `MySQLInts.ReadLenEncInt` | utility/encoding/mysqlpackets/mysqlpackets.go:803-831 | the value the first byte announces |
| `MySQLInts.LenEncReadsBack` | utility/encoding/mysqlpackets/mysqlpackets.go:624-831 | every 64-bit number at any place reads back as the same bit pattern and width |
| `MySQLInts.LenEncBytes` | utility/encoding/mysqlpackets/mysqlpackets.go:624-717 | the bytes: one below 251, else 252 with two or 253 with three bytes, low byte first, or 254 with eight |
| `MySQLPackets.NewMySQLPacketFrom` | utility/encoding/mysqlpackets/mysqlpackets.go:280-314 | indicator, length, sequence id and payload; an empty payload gives an empty packet |
| `MySQLPackets.Packager.WritePacket` | utility/encoding/mysqlpackets/mysqlpackets.go:317-344 | the payload in packets of the largest size; the error cannot arise; the sequence id moves by the packets written |
| `MySQLPackets.NewMySQLPacket` | utility/encoding/mysqlpackets/mysqlpackets.go:198-264 | the packet at the front of the stream for any cut of the payload, with wrong and unknown packets, early end, short header and missing command byte |
| `MySQLPackets.ReadPayload` | utility/encoding/mysqlpackets/mysqlpackets.go:244-254 | exactly the announced bytes, never more |
| `MySQLPackets.PacketReadsBack` | utility/encoding/mysqlpackets/mysqlpackets.go:198-314 | a packet reads back if and only if its length fits three bytes |
| `MySQLPackets.SplitReadsBack` | utility/encoding/mysqlpackets/mysqlpackets.go:198-344 | reading back all packets of a payload gives its chunks in order, as many as needed, numbered consecutively modulo 256 |
| `MySQLPackets.WireBytes` | utility/encoding/mysqlpackets/mysqlpackets.go:280-314 | the bytes: 0, the length in three, low byte first, the low byte of the sequence id, the payload |
| `Netstrings.NewNetstring` | utility/encoding/netstring/netstring.go:108-187 | the answer of the parser for every cut of the data, with all its errors |
| `Netstrings.ReadLengthFrom` | utility/encoding/netstring/netstring.go:137-153 | the decimal length, byte by byte |
| `Netstrings.ReadBody` | utility/encoding/netstring/netstring.go:155-186 | the announced bytes and the command in them |
| `Netstrings.ReadRest` | utility/encoding/netstring/netstring.go:155-168 | reads until enough is there, in any pieces |
| `Netstrings.ReadCommandFrom` | utility/encoding/netstring/netstring.go:169-184 | the decimal command up to a space or the end |
| `Netstrings.NetstringFrom` | utility/encoding/netstring/netstring.go:190-211 | the payload slice is the payload |
| `Netstrings.NetstringReadsBack` | utility/encoding/netstring/netstring.go:108-211 | a netstring reads back as its command and payload if and only if the command is not negative |
| `Netstrings.NetstringBytes` | utility/encoding/netstring/netstring.go:190-211 | the bytes: 1, the decimal length of what is between colon and comma, the decimal command, a space and the payload if there is one |
| `Netstrings.NewNetstringEmbedded` | utility/encoding/netstring/netstring.go:214-237 | the composite frame around the exact concatenation of the children |
| `Netstrings.EmbeddedReadsBack` | utility/encoding/netstring/netstring.go:108-237 | a composite reads back as command 0 and that concatenation |
| `StateLogs.StateLog.constructor` | lib/statelog.go:421-453 | all counters start at zero |
| `StateLogs.StateLog.UpdateConnectionState` | lib/statelog.go:596-641 | one event moves one connection between two states, everywhere for the global states; insane events change nothing |
| `StateLogs.StateLog.Count` | lib/statelog.go:616-627 | one counter change |
| `StateLogs.StateLog.CountEverywhere` | lib/statelog.go:617-624 | the nested loops reach every cell once |
| `StateLogs.StateLog.GetTotalConnections` | lib/statelog.go:242-260 | the sum over shards, types and instances |
| `StateLogs.BumpBalance` | lib/statelog.go:612-640 | one counter change, seen in the sums over all cells |
| `StateLogs.UpdateBalances` | lib/statelog.go:596-641 | one event keeps the books balanced |
| `StateLogs.EventTells` | lib/statelog.go:596-641 | one event, seen from one counter: up for the state entered, down for the one left, in every cell if the state is global |
| `StateLogs.CountersTell` | lib/statelog.go:596-641 | after every run a counter is what it was plus the connections that entered its state less those that left |
| `StateLogs.RunBalances` | lib/statelog.go:596-641 | after every run Idle and Assign agree in all cells, and they and all Backlog, Stranded and Close counts add up to zero |
| `StateLogs.TotalConnections` | lib/statelog.go:242-260 | the total is opens minus closes plus the active connections for every further shard; equal to opens minus closes if and only if there is one shard or nothing is active |
| `StateLogs.OneConnectionCountsTwice` | lib/statelog.go:242-260 | two shards, one connection, total two |

## Left out

- The waiting part of the pool (backlog, bouncer, soft eviction, wake-ups): only the locked sections that move workers are steps.
- WorkerPools.WorkerPool.WorkerReady: requires a worker whose id has a slot, because ids and the table may disagree after shrinking and growing, where the source indexes out of range.
- WorkerPools.WorkerPool.constructor: a start-up in which a spawn fails is an error that ends the server, and leaves no pool.
- The MySQL branch of the worker's command processor: unfinished in the source.
- SQL parsing, bind-variable conversion, column formatting: their outcomes are inputs of the command processor.
- The scheduling of the coordinator's main loop and the inside of a request: a request is its messages, its wait flag and its error.
- The bucket a key hashes to and the parsing of shard-key payloads: a key value has some bucket, a sub-command arrives parsed.
- Loading the whitelist: routing takes whatever it contains.
- The failover counters, the slow-query registry and the removal of the fetch size: they decide inputs of the dispatch.
- Integers in netstrings are unbounded here; the source's overflow on lengths and commands of 19 digits and more is not modelled.
- MySQLPackets.SplitReadsBack: header reads are taken as filled; a short header read is modelled in `NewMySQLPacket` itself.
- Length-encoded strings, sub-netstrings and the buffered netstring reader.
- CAL activity nesting, logging, configuration files, process spawning, TLS, the profiler and the RAC poller.
- The Go SQL driver and the Java client.
- Reports of the state log and the worker states in it.
