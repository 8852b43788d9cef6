# hotfuzz runtime: models and proofs

hotfuzz runs a target function in forked child processes. Argument tuples are enumerated from providers, queued in a
pool of workers, sent to a child as one frame over a socket, run there, and answered with one frame; failures are
recorded as artifacts that can be replayed. This project models that path from the enumeration to the artifact and
proves what it promises.

`dafny verify dfyconfig.toml` checks the whole project.

## How it is built

* `Bytes`, `Codec`, `CodecLaws`, `Weights`, `CodecIo`: the type-directed binary codec as functions over a datatype of types
  and a datatype of values, its laws, the size of an encoding counted on the value, and the in-place writers and cursor
  readers proved equal to the functions.
* `Frame`, `Kernels`, `Transport`, `Exchanges`: the packet frame and its laws; the operating system as scripts of
  answers (short and failed transfers, interruptions, poll results, exit statuses, failed forks, time); the exact read
  and write loops and the packet manager over it, and whole lists of packets sent and received. A statement about a
  method holds for every script.
* `WorkerSpec`, `PoolSpec`, `Ledger`: results, scheduling and bookkeeping as functions shared by the next two parts.
* `Workers`, `WorkerPools`, `ChildLoops`: the worker, the pool and the child's request loop as imperative code over the
  kernel, each method with its whole effect on the slots and on the live children and open descriptors.
* `System`, `Safety`, `Guarantees`, `Refinement`, `Modes`, `Shutdown`, `Liveness`, `Losses`, `Wakeup`, `Timeouts`,
  `Fifo`, `DispatchPasses`: the whole runtime as a step system (a producer thread in `submit()`, a consumer in
  `wait_one()`, a controller in `stop()` or `stop_immediately()`, and the children with their two byte streams), one
  inductive invariant, and the theorems over all runs.
* `Enumeration`, `Recorder`: providers, grid and zip; failure artifacts.

Exceptions are result values. A set is modelled as an ordered container of one field and a map as one of two fields;
a pair is a tuple of two items.

## What the proofs brought to light

* `stop()` changes the state and notifies without holding the queue's mutex (worker_pool.hpp:417-422). When it runs
  between the consumer's evaluation of its wait predicate and its blocking, the wakeup is lost and the consumer sleeps
  until something else wakes it. `Wakeup.StopMissesIff` says exactly when the consumer can come to sleep for good,
  `Wakeup.StopCanLoseItsWakeup` gives a run, and `Liveness.FinishesIff` shows that this is the only thing in the way of
  a drain.
* The deadline check takes a failed `poll()` for "nothing ready" (worker.hpp:625-627, 661-663). The repository's README
  (lines 445-468) says that a ready answer is not reported as a timeout. For an answer that was there when the check
  began this holds unless both polls of the check fail (`Timeouts.NeverReportedAsTimeout`,
  `Timeouts.AnswerReportedAsTimeout`, `Workers.HungIff`); an answer that comes between the two looks can be lost to the
  second poll alone (`Timeouts.LateAnswerReportedAsTimeout`).
* `record()` tests its stream before the stream is flushed (failure_recorder.hpp:106-118). A small artifact is still in
  the buffer then; when the flush at the end of `record()` fails, nothing is thrown, the entry stands, and the file holds
  a beginning of the encoding (`Recorder.LosesArtifact`). Such an artifact is rejected when it is loaded, never taken for
  other arguments (`Recorder.FailureRecorder.Replays`).
* A result is counted as finished before the restart of its slot, so a failed restart drops the result and `finished()`
  runs ahead of the results returned, by exactly the number of such restarts (`Losses.FinishedIff`,
  `Losses.FinishedWithoutResult`). A failed restart during dispatch drops the popped task although it may have attempts
  left (`Losses.DropStep`, `Losses.NothingMissingIff`, `Losses.TaskLostWithAttemptsLeft`).
* In grid mode a provider with maximum 0 keeps the providers behind it from being reached, so they are not reset
  (`Enumeration.RunGrid`, `Enumeration.AllResetIff`, `Enumeration.BehindNothing`).

## Model

| member | source | states |
|---|---|---|
| Safety.StepKeeps | include/worker/worker_pool.hpp:309-413 | every step of the producer, consumer, controller and child processes keeps the invariant: balanced ledger, children in step with their slots, at most one execution, honest results |
| Safety.ReachableInv | include/worker/worker_pool.hpp:282-440 | the invariant holds in every state of every run, over all interleavings and all operating-system outcomes |
| Safety.OnlyHonestReplies | include/worker/worker.hpp:1001-1070 | what can be read from a busy worker is nothing yet, or exactly one whole ok or exception reply to its own task; the foreign-id, unexpected-kind and bad-frame branches cannot be taken |
| Guarantees.AtMostOnce | include/worker/worker_pool.hpp:599-649 | no task id's target call begins twice, whatever is retried; a pending task outside a send, and a task lost to a dispatch_error, has never begun |
| Guarantees.FailedSendNeverRuns | include/worker/worker.hpp:366-411 | after a send that failed inside the frame the child cannot decode the request and the task has not begun |
| Guarantees.Conservation | include/worker/worker_pool.hpp:282-305 | every handed-out id is in exactly one place: queue, busy slot, returned results, results dropped by a failed restart, tasks taken by a dispatch_error, tasks discarded by stop_immediately(); no other id is anywhere |
| Guarantees.NoDuplicates | include/worker/worker_pool.hpp:530-571 | no id is queued twice, in flight twice or returned twice; submitted is the sum of all accounts |
| Guarantees.HonestResults | include/worker/worker.hpp:852-868 | a returned result carries the arguments submitted under its id; ok means the one execution on them returned, exception means it threw that text |
| Guarantees.StreamsStaySynchronised | include/worker/worker.hpp:485-494 | collecting a readable reply always gives an ok or exception result and leaves the reply stream empty; a bad frame is never seen |
| Guarantees.IdleIsQuiet | include/worker/worker.hpp:1028-1034 | an idle worker that nobody is sending to, alive or dead, has no unread byte in either direction of its socket |
| Refinement.ResultsAgree | include/worker/worker.hpp:749-848 | on every run, however unlucky, an ok or exception result is the one that calling the pure target in the own process gives for that id |
| Refinement.IsolatedRefinesInProcess | include/fuzz/utils.hpp:386-417 | a run without infrastructure failures that has no work left has returned exactly the in-process results for its submissions, none missing, none extra, none different |
| Modes.PushedAreCalls | include/worker/worker_pool.hpp:282-305 | the arguments filed under ids 1, 2, ... are the submitted tuples in submission order |
| Modes.ModesAgree | include/fuzz/utils.hpp:316-453 | a run without infrastructure failures that has no work left has returned, up to order and each once, exactly the results of calling the target on the submitted tuples in the own process |
| Modes.GridBothWays | include/fuzz/utils.hpp:316-453 | grid mode over the same providers, wherever these stand: the isolated run and the run in the own process enumerate the rows of the product, and the isolated results are, up to order, those the own process leaves |
| Modes.ZipBothWays | include/fuzz/utils.hpp:175-306 | the same for zip mode over providers that stand alike |
| Modes.GridResults | include/fuzz/utils.hpp:144-171 | a clean isolated grid run returns one result per row of the product, each the outcome of the target on that row, and none else |
| Shutdown.StateMonotone | include/worker/worker_pool.hpp:417-440 | the pool state only moves accepting, finishing, stopped |
| Shutdown.SealedForever | include/worker/worker_pool.hpp:426-440 | once stop_immediately() has run its locked section, the queue stays empty, every slot stays stopped and no target call begins, even if submit() or wait_one() had already passed its check |
| Shutdown.DrainedStable | include/worker/worker_pool.hpp:506-526 | a drained pool stays drained under every step but stop_immediately() |
| Shutdown.DrainedErrorIsHonest | include/worker/worker_pool.hpp:343-349 | wait_one() throws its drained error only when every submitted id was returned, or dropped or lost together with an exception |
| Shutdown.DrainTerminates | include/worker/worker_pool.hpp:599-649 | without new submissions, the number of settled deliveries and results in any run is bounded by the attempts left plus the tasks in flight |
| Shutdown.NoPushAfterStop | include/worker/worker_pool.hpp:282-302 | on every run from a pool that does not accept any more at most one submission is still queued, and none unless one had passed its check before |
| Shutdown.DrainReturnsAll | include/worker/worker_pool.hpp:309-413 | a drain, on any interleaving, without an immediate stop and without an exception that takes a task: every task that was pending or in flight has exactly one result, returned during the drain and with its own arguments, and there are as many results as tasks |
| Liveness.FinishesIff | include/worker/worker_pool.hpp:309-422 | from every reachable state of a stopping pool, wherever its threads and children stand, some continuation without failures drains it and lets wait_one() end, exactly unless the consumer sleeps or is about to and nobody is left to wake it |
| Liveness.LiveFinishes | include/worker/worker_pool.hpp:309-413 | such a continuation is found step by step: every step lowers the producer's part, the deliveries and results still to come, the rounds of wait_one(), or the steps left in this round |
| Losses.DropStep | include/worker/worker_pool.hpp:530-684 | a result is dropped exactly by collecting a discarding result whose slot cannot be restarted, a task exactly by a delivery that cannot be serialized, whose slot cannot be restarted, or that was the last attempt |
| Losses.FinishedIff | include/worker/worker_pool.hpp:451-456 | on every run finished() is the number of returned results plus the results dropped by failed restarts; the two are equal exactly when there was no such restart |
| Losses.NothingMissingIff | include/worker/worker_pool.hpp:444-456 | without an immediate stop every submitted task is queued, in flight or answered exactly when no step of the run dropped a result or a task |
| Losses.FinishedWithoutResult | include/worker/worker_pool.hpp:541-545 | for every task and every way to die there is a run after which finished() is 1 and no result was returned |
| Losses.TaskLostWithAttemptsLeft | include/worker/worker_pool.hpp:635-647 | for every task and every attempt budget there is a run in which the first failed send loses the task, because its slot cannot be restarted |
| Wakeup.NoLostWakeup | include/worker/worker_pool.hpp:286-302 | while the consumer sleeps although a task is queued or the pool is stopped, the responsible thread still owes its notification |
| Wakeup.StopMissesIff | include/worker/worker_pool.hpp:417-422 | after the notification of stop() some continuation without another stop and without a spurious wakeup leaves the consumer asleep for good, exactly when the notification came between the consumer's predicate and its blocking |
| Wakeup.AsleepWhileFinishing | include/worker/worker_pool.hpp:351-362 | a consumer asleep in a finishing pool has a notification of stop() coming or has missed it |
| Wakeup.StopCanLoseItsWakeup | include/worker/worker_pool.hpp:417-422 | a concrete run of one worker without tasks in which stop() loses its wakeup and nobody is left to wake the consumer |
| Wakeup.StuckForever | include/worker/worker_pool.hpp:351-362 | such a consumer sleeps on every continuation without another stop and without a spurious wakeup |
| Timeouts.NeverReportedAsTimeout | include/worker/worker.hpp:597-689 | once a busy worker has something to read or its child has ended, and no deadline check of it stands behind a first poll that worked, no continuation returns a timeout for its task unless both polls of one check fail |
| Timeouts.AnswerReportedAsTimeout | include/worker/worker.hpp:625-627 | the exception is real: for every task there is a run in which its call ends and its whole reply is written, and a deadline check that begins afterwards, and whose polls both fail, still returns a timeout |
| Timeouts.BlindCheckDiscardsAnswer | include/worker/worker.hpp:597-689 | in every state with a busy worker whose answer is there, a deadline check goes on after its first poll only when that fails, and ends in a timeout only when the second fails too; when both fail it does |
| Timeouts.LateAnswerReportedAsTimeout | include/worker/worker.hpp:643-663 | for every task there is a run in which no check has both polls fail, the whole reply is written between the two looks of a check, and its second poll alone fails: the result is a timeout |
| DispatchPasses.LoopIsOnePass | include/worker/worker_pool.hpp:599-649 | on every run, whatever other threads and children do meanwhile, the dispatch loop changes the pool as one dispatch pass does, throws exactly when the pass does, and otherwise leaves nothing pending or every slot busy or with a failed send in this pass |
| Fifo.AcceptedInOrder | include/worker/worker_pool.hpp:599-649 | on runs without failed sends the queue is the tail of the submission order, so the oldest task is always the next one accepted |
| Fifo.OneWorkerAnswersInOrder | include/worker/worker_pool.hpp:309-413 | with one worker and no failed send or restart the k-th result answers task k |
| Ledger.PushKeeps | include/worker/worker_pool.hpp:282-305 | submitting keeps the ledger balanced |
| Ledger.AttemptedKeeps | include/worker/worker_pool.hpp:604-648 | accepting, requeueing or losing the head of the queue keeps the ledger balanced, with every queued task below the attempt budget |
| Ledger.CollectedKeeps | include/worker/worker_pool.hpp:530-571 | collecting a result, also one whose slot cannot be restarted, keeps the ledger balanced |
| Ledger.KilledKeeps | include/worker/worker_pool.hpp:426-437 | stop_immediately() keeps the ledger balanced |
| PoolSpec.WorkConserving | include/worker/worker_pool.hpp:599-649 | after a normal dispatch pass nothing is pending, or every slot is busy or had a failed send in that pass |
| PoolSpec.InOrder | include/worker/worker_pool.hpp:599-649 | without failures the k-th free slot gets the k-th pending task and nothing else changes |
| PoolSpec.DispatchKeeps | include/worker/worker_pool.hpp:599-649 | a dispatch pass neither invents nor duplicates a task, and loses one only when it throws for it |
| PoolSpec.DispatchRank | include/worker/worker_pool.hpp:599-649 | a pass that does not throw uses up attempts or tasks, or found no task or no free slot |
| PoolSpec.CollectedTakes | include/worker/worker_pool.hpp:530-571 | collecting takes exactly the collected task out of play |
| WorkerPools.Open | include/worker/worker_pool.hpp:247-271 | construction gives a pool whose workers all run, which it does when every fork succeeds, or throws, with everything reaped and closed that it had forked and opened |
| WorkerPools.WorkerPool.Submit | include/worker/worker_pool.hpp:282-305 | appends one task under the next id, or throws and changes nothing |
| WorkerPools.WorkerPool.SpawnWorkerOrThrow | include/worker/worker_pool.hpp:575-595 | starts a stopped slot with the first fork that succeeds among at most max_dispatch_attempts, or throws when all of them fail; other slots, children and descriptors are untouched |
| WorkerPools.WorkerPool.RespawnIfNeeded | include/worker/worker_pool.hpp:676-684 | a live slot is kept, a stopped one restarted, or the exception thrown, and then only because all max_dispatch_attempts forks were refused |
| WorkerPools.WorkerPool.DispatchPendingTasks | include/worker/worker_pool.hpp:599-649 | the loop over the slots computes the dispatch pass that the laws of PoolSpec are about, and for every attempt of it there is evidence: a task is accepted exactly when its child was given exactly the request, refused only when it is larger than 2^32 - 1 bytes, failed only when the socket did not let it through and was closed behind a part of it, and a restart or start fails only when all forks were refused. When every free slot is idle and willing nothing is thrown and the k-th of them has the k-th pending task; with nothing to dispatch nothing happens |
| WorkerPools.WorkerPool.DispatchTo | include/worker/worker_pool.hpp:607-648 | one turn of that loop: a busy slot is left alone, a stopped one started, and the head of the queue is offered to it, with the same evidence |
| WorkerPools.WorkerPool.Deliver | include/worker/worker_pool.hpp:626-629 | send() on an idle worker: the slot is busy with the task exactly when the child was given its request, unchanged when the task is too large, stopped behind a part of the request otherwise |
| WorkerPools.WorkerPool.PassThrew | include/worker/worker_pool.hpp:599-649 | a pass throws only because a pending task is too large, all forks of a restart were refused, or a send was cut off inside its frame |
| PoolSpec.TakenInOrder | include/worker/worker_pool.hpp:607-632 | when every attempt of a pass is accepted the k-th free slot has the k-th pending task |
| PoolSpec.GivenUp | include/worker/worker_pool.hpp:634-647 | a pass gives a task up only when it cannot be serialized, when its worker could not be restarted, or when it has used up exactly max_dispatch_attempts |
| PoolSpec.PassesAreDispatch | include/worker/worker_pool.hpp:605-648 | the slot-by-slot fold of the loop is the recursive dispatch pass |
| WorkerPools.WorkerPool.CollectExpiredTask | include/worker/worker_pool.hpp:530-549 | at one moment during the call every slot before the collected one is not overdue or shows an event; the collected task is overdue and its result is what two looks at its socket and child make of it; its slot is restarted, or the exception thrown because all forks were refused; otherwise nothing happens but the looks at overdue slots |
| WorkerPools.WorkerPool.CollectWorkerEvent | include/worker/worker_pool.hpp:553-571 | an event on a busy worker's descriptor always yields the result that receive() gives for the worker that has this descriptor; only a restart for which all forks are refused loses it, and never an answer of the target; a timeout is the result of an overdue task that hangs |
| WorkerPools.WorkerPool.FindWorkerByFd | include/worker/worker_pool.hpp:710-719 | the first slot with this descriptor, or none has it |
| WorkerPools.WorkerPool.PollableFds | include/worker/worker_pool.hpp:688-706 | exactly the open descriptors of the busy workers, in slot order |
| WorkerPools.WorkerPool.HasWorkNow | include/worker/worker_pool.hpp:514-526 | true exactly when a task is pending or in flight |
| WorkerPools.WorkerPool.WaitOne | include/worker/worker_pool.hpp:309-413 | a result is a task in play and is taken out of play; only a dispatch_error can lose one task, and it has one of its three reasons; poll() failed when it is said to have failed; drained and blocking outcomes mean no work. With nothing to dispatch the deadline checks and the answer of poll() decide the first round: the first expired slot, or else the first slot that poll() reports, gives the result, which is what receive() makes of it, and the call goes round again only when they say nothing. A timeout is reported only after the task's deadline; the call goes round again at most once per dispatch attempt and result still to come and once per silent or interrupted poll() |
| WorkerPools.WorkerPool.PromptResult | include/worker/worker_pool.hpp:378-409 | in particular: with time left for every task in flight, the ok or exception reply behind the first descriptor that poll() reports is the outcome |
| WorkerPools.WorkerPool.PollAndCollect | include/worker/worker_pool.hpp:365-409 | one poll(): its failure is an exception unless it was interrupted, and the first slot that it reports, or that has input pending, gives the outcome |
| WorkerPools.WorkerPool.StopAccepting | include/worker/worker_pool.hpp:417-422 | an accepting pool becomes finishing, any other state stays |
| WorkerPools.WorkerPool.Drained | include/worker/worker_pool.hpp:506-510 | true exactly when the pool is finishing and has no work |
| WorkerPools.WorkerPool.StopImmediately | include/worker/worker_pool.hpp:426-440 | empties the queue and stops every slot; no child and no descriptor is left, and over the whole life of the pool, restarts included, every pid was reaped as often as it was forked and every descriptor closed as often as it was opened |
| Workers.Worker.Spawn | include/worker/worker.hpp:282-320 | only a stopped worker gets a child, exactly when the fork succeeds; then it is idle and owns one new child and one new descriptor |
| Workers.Worker.Send | include/worker/worker.hpp:343-447 | accepted: the child was given exactly one request for this task, whose deadline is a whole task timeout after a moment during the call; not serialized: exactly when the packet would be larger than 2^32 - 1 bytes, and nothing is written; failed inside the frame: the child is reaped, its descriptor closed, what it was given is no whole packet, and the status says whether a timeout, a disconnect or another error was the reason; a kernel that only splits, shortens or interrupts in time lets it through |
| Workers.Worker.Receive | include/worker/worker.hpp:451-593 | which result it is: the deadline check at one moment during the call, then one look at the child, whose end is the result when it shows, then the socket: over a kernel that only splits, shortens or interrupts in time what stands at its front is read and decides the result; any other failure has its reason and is the result only after the waiting time. The worker is idle exactly after an ok or exception reply, of which exactly that frame is taken, else stopped; a timeout needs a deadline that has passed and two blind looks |
| Workers.ReplyReported | include/worker/worker.hpp:480-494 | with time left and a child whose end does not show, a whole ok or exception reply that stands in a willing socket is the result, with the text of the exception |
| Workers.EndReported | include/worker/worker.hpp:466-478 | with time left, a child whose end shows at the first look is reported by its signal or exit code, never as an answer, whatever stands in the socket |
| Workers.HangReported | include/worker/worker.hpp:597-689 | a task at or past its deadline whose socket and child show nothing is a timeout |
| Workers.MalformedReported | include/worker/worker.hpp:547-572 | malformed bytes from a child that does not end are a protocol error |
| Workers.Worker.ReadResponse | include/worker/worker.hpp:485-592 | a packet that arrives decides the result; after a malformed one, or a transport failure other than a timeout, the child's exit status is reported if it is there at once, and otherwise the failure only after the waiting time; what stands at the front of the stream, whole or malformed, is what is read over a kernel that only splits, shortens or interrupts in time, and a transport failure has its reason |
| Workers.Worker.ExpireIfTimedOut | include/worker/worker.hpp:597-689 | an overdue task is left to receive(), reported with the child's exit, or declared hung, according to two looks at socket and child, which are all that is used up of their answers |
| Workers.HungIff | include/worker/worker.hpp:619-688 | a task is declared hung exactly when both polls and both waitpid probes saw nothing |
| Workers.LooksInTurn | include/worker/worker.hpp:619-688 | each time the socket is looked at before the child: the check leaves a task to receive(), or reports how its child ended, according to which look is the first that sees something |
| Workers.ReadyIsNotHung | include/worker/worker.hpp:619-663 | with input pending or an ended child only failing system calls can make a task look hung |
| Workers.Worker.TryCollectChildExitResult | include/worker/worker.hpp:938-969 | a reaped child gives the result of its exit status and is forgotten; otherwise nothing is reported |
| Workers.Worker.WaitForChildExitResult | include/worker/worker.hpp:973-997 | an exit that is there at once is reported; nothing is reported only after the whole waiting time, with a look at the child for every millisecond of it that the clock leaves |
| Workers.Worker.FinishTaskFromResponsePacket | include/worker/worker.hpp:1001-1070 | the result and the fate of the child for every packet that can arrive |
| Workers.FinishLabels | include/worker/worker.hpp:1001-1070 | a packet keeps the child exactly when its result is ok or exception; every other packet is a protocol error |
| Workers.Worker.StopGracefully | include/worker/worker.hpp:1081-1111 | an idle child is sent a stop frame, whole over a willing kernel or a part of it, and is looked at again and again for the time it is given, and reaped at most once |
| Workers.Worker.ShutdownChild | include/worker/worker.hpp:1074-1154 | afterwards the slot is stopped, the child it owned reaped once and its descriptor closed once; only an idle child was asked to stop before |
| ChildLoops.ChildLoop | include/worker/worker.hpp:749-848 | the calls made are the run packets at the front of the input, in order, each once, with the exit code telling what stood behind them; the replies are written in the same order, the last one perhaps in part; over a blocking socket that only splits, shortens or interrupts, the exit code is 71 only when every whole request was answered and what is left of the input is neither whole nor malformed, or because a reply cannot be built |
| ChildLoops.AllRequestsExecuted | include/worker/worker.hpp:749-789 | a child given whole requests and a stop, which exits normally, has made exactly those calls |
| ChildLoops.PartialRequestNeverExecuted | include/worker/worker.hpp:753-776 | a child given only a strict prefix of a frame calls nothing |
| WorkerSpec.RunFrameIsRequest | include/protocol/packet_manager.hpp:132-148 | send_run puts a request for exactly this id and these arguments on the wire |
| WorkerSpec.ReplyFrameIsReply | include/protocol/packet_manager.hpp:151-213 | send_ok and send_exception put a reply for exactly this id and outcome on the wire |
| WorkerSpec.ExitStatusClassified | include/worker/worker.hpp:871-934 | a crash is reported exactly for a signal, signal and exit code are kept, 70 is a protocol error, 0 and 71 are IPC errors, any other code is internal, and an exit is never taken for an answer or a timeout |
| WorkerSpec.PacketClassified | include/worker/worker.hpp:1001-1070 | a packet is ok exactly for its own id and kind 2, an exception with its text exactly for its own id and kind 3, and a protocol error otherwise; the child is kept in the first two cases only |
| WorkerSpec.OutcomeClassified | include/fuzz/utils.hpp:386-417 | the result of a call is ok exactly when it returned, and an exception with its text exactly when it threw |
| WorkerSpec.HonestReply | include/worker/worker.hpp:1028-1043 | an honest reply is read as the outcome it was sent for and keeps the worker |
| Transport.WriteAll | include/protocol/io_utils.hpp:84-108 | ok means all bytes appended to the stream, anything else a strict prefix; it succeeds whenever calls are only split or interrupted, and leaves the moves of later transfers; every failure is one the kernel answered; no call goes on after one that moved nothing |
| Transport.ReadAll | include/protocol/io_utils.hpp:113-137 | ok means the buffer holds the next bytes of the stream, anything else that fewer were taken; it succeeds whenever calls are only split or interrupted, and leaves the moves of later transfers; every failure is one the kernel answered; a stream that ends too early is reported as its end, and no call goes on after one that moved nothing |
| Transport.WriteAllFor | include/protocol/io_utils.hpp:143-205 | all bytes or a strict prefix, before a deadline; it succeeds when calls are only split, shortened or repeated, every poll() lets it go on and the clock stays before the deadline, and never at or after the deadline, nor past a poll() that shows a hang-up, an error or an invalid descriptor; every failure has its reason |
| Transport.ReadAllFor | include/protocol/io_utils.hpp:210-277 | the next bytes or fewer, before a deadline; it succeeds when calls are only split, shortened or repeated, every poll() lets it go on and the clock stays before the deadline, and never at or after the deadline, nor past a poll() that shows an invalid descriptor, or a hang-up or an error without input; every failure has its reason |
| Transport.PacketManager.SendPacket | include/protocol/packet_manager.hpp:269-318 | sent: exactly one frame was appended; torn: a strict prefix of it, for a reason; unbuildable: nothing, and exactly when the payload is larger than 2^32 - 1 bytes or of a kind that the packet does not take; never torn when transfers are only split, shortened or interrupted, with or without a timeout |
| Transport.PacketManager.Send | include/protocol/packet_manager.hpp:132-213 | serializing and sending a packet of any kind; it cannot be built exactly when its payload, counted on the value, is larger than 2^32 - 1 bytes or not the one its kind takes; otherwise it is sent when transfers are only split, shortened or interrupted |
| Transport.PacketManager.ReceivePacket | include/protocol/packet_manager.hpp:217-265 | the bytes taken off the stream are one whole frame of the returned packet, a malformed one, or an incomplete one, and then the transport failure has its reason; what stands at the front of the stream, a whole packet or a malformed one, is what comes out when transfers are only split, shortened or interrupted |
| Transport.PacketTaken | include/protocol/packet_manager.hpp:217-265 | the packet returned is the one at the front of the stream |
| Transport.NextOfStream | include/protocol/packet_manager.hpp:217-265 | receiving from a stream of whole frames returns the packets in order and is never malformed |
| Exchanges.SendEach | include/protocol/packet_manager.hpp:132-318 | sending a list of packets: the stream gains the frames of the first ones and at most a strict prefix of the next; all of them when transfers are only split, shortened or interrupted |
| Exchanges.ReceiveEach | include/protocol/packet_manager.hpp:217-265 | receiving again and again gives the first of the packets that stand in the stream; when transfers are only split, shortened or interrupted it gives all of them and leaves no byte of them, so a stream of whole packets ends empty |
| Exchanges.StreamCarries | include/protocol/packet_manager.hpp:132-343 | whole frames with a part of another behind them are received as exactly the packets they were built from, and the part is what is left |
| Exchanges.Exchange | include/protocol/packet_manager.hpp:132-343 | a list sent at one end and received at the other: whatever happens to the transfers, what is received is a beginning of the list, in order and unaltered; when transfers at both ends are only split, shortened or interrupted it is the whole list, and the receiver's stream ends empty |
| Frame.HeaderRoundTrip | include/protocol/specs.h:87-99 | the header survives its object representation whatever the padding bytes are |
| Frame.HeaderLayout | include/protocol/specs.h:87-99 | where the fields of a header stand, byte for byte |
| Frame.HeaderAcceptedIff | include/protocol/packet_manager.hpp:347-402 | the header bytes that validation accepts, in numbers |
| Frame.FrameBuildableIff | include/protocol/packet_manager.hpp:321-343 | a frame can be built exactly when its payload has the kind that its own kind asks for and at most 2^32 - 1 bytes, counted on the value; it then has 32 bytes more |
| Frame.FrameRoundTrip | include/protocol/packet_manager.hpp:217-343 | receiving a sent frame gives back kind, id, flags and payload and leaves nothing |
| Frame.PrefixWaits | include/protocol/packet_manager.hpp:217-265 | a strict prefix of a frame yields no packet and no protocol error |
| Frame.ReceiveExtends | include/protocol/packet_manager.hpp:217-265 | later bytes do not change a decided receive |
| Frame.StreamPrefix | include/protocol/packet_manager.hpp:217-318 | however much of a stream of frames has arrived, the packets received are exactly those of the whole frames in it |
| Frame.StreamRoundTrip | include/protocol/packet_manager.hpp:217-318 | sending a list of packets and receiving until nothing is left gives back exactly that list |
| CodecLaws.RoundTrip | include/serialization/rw_utils.hpp:195-272 | for every supported type, reading what was written with anything behind it returns the value and leaves exactly the rest |
| CodecLaws.ApiRoundTrip | include/serialization/api.hpp:25-48 | from_bytes undoes to_bytes |
| CodecLaws.WireFormat | include/serialization/rw_utils.hpp:195-227 | the bytes themselves, for one value of each shape: eight-byte little-endian sizes before lists and blobs, one byte for a flag, an index in front of a variant, the entries of a map in order |
| Weights.EncodableIff | include/serialization/rw_utils.hpp:195-227 | a value can be written into at most so many bytes, fewer than 2^64, exactly when it weighs no more, counted on the value without writing it |
| CodecLaws.DecExtends | include/serialization/rw_utils.hpp:232-272 | a read depends only on the bytes it uses up |
| CodecLaws.PrefixFree | include/serialization/rw_utils.hpp:195-272 | no two values of a type share an encoding and no encoding begins another |
| CodecLaws.TruncationRejected | include/serialization/rw_utils.hpp:232-272 | every truncation of an encoding is rejected, for every type |
| CodecLaws.DecNormal | include/serialization/rw_utils.hpp:232-272 | an accepted value has the type asked for and writes back, never into more bytes, and into the same bytes exactly when every map and set in them stands in strict key order |
| CodecLaws.Canonical | include/serialization/rw_utils.hpp:195-272 | without maps and sets an accepted buffer is the encoding of its value |
| CodecLaws.Normalises | include/serialization/api.hpp:25-48 | re-encoding an accepted buffer succeeds, does not grow, and decodes to the same value |
| CodecLaws.CanonicalIff | include/serialization/rw_utils.hpp:195-272 | for every type an accepted buffer is the encoding of its value exactly when the entries of every map and set in it, at any depth, stand in strict key order |
| CodecLaws.EmplaceKeepsOrder | include/serialization/serializers/map.hpp:52-59 | one emplace keeps the container sorted, adds nothing but the new entry and drops nothing |
| CodecLaws.EmplaceAdds | include/serialization/serializers/set.hpp:47-50 | an entry whose key is present changes nothing, any other is added |
| CodecLaws.FirstWins | include/serialization/serializers/map.hpp:44-65 | decoding keeps, for every key in the blob, its first entry and no other, in key order |
| CodecIo.WriteValue | include/serialization/rw_utils.hpp:195-227 | the in-place writer appends exactly the encoding, or throws when it has none |
| CodecIo.WriteBody | include/serialization/serializers/map.hpp:30-42 | the bundled serializers append their blobs |
| CodecIo.WriteBlock | include/serialization/rw_utils.hpp:106-110 | the raw fast path appends what element-wise writing would |
| CodecIo.ReadValue | include/serialization/rw_utils.hpp:232-272 | the cursor reader returns the decoded value and stands behind it, or throws |
| CodecIo.ReadBody | include/serialization/serializers/variant.hpp:47-84 | the bundled deserializers accept exactly the blobs that are used up completely |
| CodecIo.ReadBlock | include/serialization/rw_utils.hpp:131-139 | the raw fast path reads what element-wise reading would |
| CodecIo.ReadEntries | include/serialization/serializers/map.hpp:54-59 | the emplace loop builds the ordered container of the blob's entries |
| CodecIo.ReadEach | include/serialization/serializers/tuple.hpp:42-60 | tuple elements and pair members are read left to right |
| CodecIo.ByteReader.ReadBytes | include/serialization/byte_utils.hpp:37-50 | the next bytes, or an exception that moves nothing |
| CodecIo.Serialize | include/serialization/api.hpp:25-31 | to_bytes: the bytes of the value, or the failure |
| CodecIo.Deserialize | include/serialization/api.hpp:38-48 | from_bytes: the value, only when the whole buffer is used up |
| Enumeration.MakeProvider | include/data/providers.hpp:86-97 | a provider can be made exactly over a non-empty object, and starts at its beginning |
| Enumeration.IterableProvider.Next | include/data/providers.hpp:106-118 | the value at the cursor, which moves on by one modulo the number of items |
| Enumeration.IterableProvider.Column | include/data/providers.hpp:106-118 | after a reset the k-th value is item k modulo the number of items |
| Enumeration.IterableProvider.Iter | include/data/base_provider.hpp:35-44 | one value and one step, or the exhaustion signal exactly at the maximum, which changes nothing |
| Enumeration.IterableProvider.Reset | include/data/providers.hpp:99-104 | index and cursor back to the start |
| Enumeration.GridImpl | include/fuzz/utils.hpp:144-171 | one level of the recursion makes the calls of the product of its columns, in order, and never reads an empty optional; the providers it reaches end where a reset leaves them, the others where they stood |
| Enumeration.RunGrid | include/fuzz/utils.hpp:316-354 | the calls are exactly the rows of the product, whatever the providers had given out before; in the own process the results are those of the target on them; every provider that is reached is reset, and no other is touched |
| Enumeration.AllResetIff | include/fuzz/utils.hpp:144-171 | a grid run leaves every provider reset exactly when none that stood elsewhere has a provider without values before it |
| Enumeration.BehindNothing | include/fuzz/utils.hpp:144-171 | it happens: behind a provider with maximum 0 another keeps its place, and no call is made |
| Enumeration.ProductAt | include/fuzz/utils.hpp:144-171 | the n-th call has its values at the mixed-radix digits of n |
| Enumeration.ProductMember | include/fuzz/utils.hpp:144-171 | the calls are exactly the ways to pick one value from every column |
| Enumeration.ProductSize | include/fuzz/utils.hpp:144-171 | there is one call per element of the product |
| Enumeration.NextRow | include/fuzz/utils.hpp:182-182 | iter() left to right up to the first exhausted provider; the ones before it have advanced |
| Enumeration.ZipImpl | include/fuzz/utils.hpp:285-306 | as many calls as the scarcest provider has values left; the providers before the first exhausted one end one value further than the others |
| Enumeration.ScarcestFirst | include/fuzz/utils.hpp:175-190 | the providers that end one value further are those before the first scarcest one |
| Enumeration.ZipValue | include/fuzz/utils.hpp:175-190 | in round k of a zip every provider gives the item k places on from where it stood, modulo the number of its items |
| Recorder.FailureRecorder.Record | include/fuzz/failure_recorder.hpp:90-137 | a record uses up one id and touches no artifact of an earlier entry; an entry is added exactly when no write is seen to fail, under its own file name, and its file holds what reached the disk of the encoding; the call throws otherwise, or when the JSON file cannot be opened |
| Recorder.FailureRecorder.RecordResult | include/fuzz/failure_recorder.hpp:68-86 | every result but an ok one is recorded under the file name of its kind and record id, with the signal's name for a crash, the message of an exception, and the message or else the name of the status for the others |
| Recorder.FailureRecorder.Numbered | include/fuzz/failure_recorder.hpp:97-99 | while every record succeeds the k-th recorded failure has record id k |
| Recorder.ArtifactPathInjective | include/fuzz/failure_recorder.hpp:98-101 | two artifacts share a file name only if they share kind and record id |
| Recorder.FailureRecorder.Replays | include/fuzz/utils.hpp:34-53 | in every state of the recorder, loading a recorded artifact gives back the arguments of that failure exactly when the artifact has arrived whole, and throws otherwise, so that a replay never runs other arguments |
| Recorder.StoredPart | include/fuzz/failure_recorder.hpp:106-118 | of the beginnings of an encoding that a file may hold, the whole one loads as the arguments and every other one is rejected |
| Recorder.LosesArtifact | include/fuzz/failure_recorder.hpp:106-137 | it happens: for every argument tuple and every strict beginning of its encoding a record returns its entry and leaves an artifact that cannot be loaded |
| Recorder.FailureRecorder.Load | include/fuzz/utils.hpp:34-53 | the decoded file, or an exception |

## Left out

- WorkerPools.WorkerPool.WaitOne: one call without interference of other threads; blocking on the condition variable is
  an outcome. Interleavings are the subject of `System` and the theorems over it. With a target that hangs and no task
  timeout the source polls for ever; here the script of poll answers runs out, which is a failing poll().
- Liveness.FinishesIff: some continuation, not every fair one; that every fair scheduler reaches the end is not stated.
- WorkerPools.WorkerPool.StopAccepting: does not model the notification, which is a step of `System`.
- WorkerPools.WorkerPool.Submit: does not model the wrap-around of task ids after 2^64 submissions; it requires a free
  id.
- Timeouts.NeverReportedAsTimeout: says nothing about runs in which both polls of one deadline check fail, or in which
  the answer comes after a first poll that worked, because the code does report timeouts there.
- ChildLoops.ChildLoop: the target is pure and returns or throws a text; a call that ends the process is a step of
  `System`. Exit code 72, for exceptions such as exhausted memory, does not occur in it.
- Exchanges.Exchange: what the receiving process finds in its stream is a premise; the two ends are two kernels.
- Recorder.FailureRecorder.Record: the contents of the JSON file are not modelled, only that it cannot be opened; a write
  of it that fails later goes unnoticed in the source as well.
- Codec: reading a byte other than 0 or 1 as a bool is undefined in C++ and counts as malformed; a little-endian host
  with 64-bit size_t is assumed; user-written serializers, valueless variants and exhausted memory are not modelled.
- System: there is one controller thread, so `stop()` and `stop_immediately()` called by two threads do not overlap. The
  locked section of `stop_immediately()` and each collecting operation are one step, and so is each look of a deadline
  check, the second together with the discarding that follows it. Messages of transport and protocol failures are
  abbreviated there and in `Workers`.
- Kernels: the blocking `waitpid()` of a killed child succeeds, statuses are exited or signalled, and the kernel does not
  hand out a pid or descriptor that is in use. The fallback from `send()` to `write()` on descriptors that are not
  sockets is not modelled.
- Random providers: their distributions are library code, and `std_random_provider` does not restart its sequence on
  `reset()`, so no exact product can be claimed for them.
- The in-process zip without any provider does not end; at least one provider is required.
- Exceptions that are not derived from std::exception: their text differs in letter case between the two modes.
- Dashboard, console formatter, system scraper, Docker runner, Windows build and examples: user interface and platform
  code that would only add easy members.
