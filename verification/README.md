# Runact, verified

A Dafny model of the concurrent core of the Runact actor runtime, with proofs about
every run of it: the work-stealing scheduler, the timer service, the supervisor, the
compute pool, the actor loop with its reply slot, and the bounded mailbox.

## How it is modelled

Each component is a transition system. Every lock section, atomic access or channel
operation of the code is one event; whatever a thread keeps in local variables between
two of them (the stolen tasks in a thief's hand, the due timers of the current pass, the
task a compute worker has taken) is part of the state. A *run* is any finite sequence of
enabled events, so it stands for any interleaving of any number of threads, and the main
theorems quantify over all runs. Histories (deliveries, results sent, messages accepted)
are part of the state, so that a theorem can speak about a run's past. Clocks are natural
numbers of nanoseconds that never go back.

Beside each transition system stands an object with the fields of the original
(`Scheduler`, `RunQueue`, `TimerService`, `SupervisorActor`, `Supervisor`,
`ComputeScheduler`, `ActorTask`, `Mailbox`). Its methods update those fields in place, with
the code's branches and loops; a method for one lock section, atomic access or channel
operation is proved to perform that event. For the concurrent objects `Perform` carries out
any schedule of events and ends in the state the transition system reaches, so the theorems
about runs are theorems about the objects; only such methods have rows below, and those that
do more than one assignment per field.

| files | component |
|---|---|
| basics, arithmetic, tallies | shared vocabulary, products and quotients, counting |
| run_queue, work_stealing, scheduler | run queues, the scheduler's machine and object |
| exactly_once, steal_bounds, scan_order, ticket_order, round_robin, shutdown | theorems about the scheduler |
| timers, timer_service | the timer service's machine and object |
| timer_laws, timer_catchup, timer_cancel, timer_order | theorems about timers |
| backoff, supervision, supervisors, restarts, spacing, restart_agreement, restart_window, statuses | backoff arithmetic, supervisor machine, objects, theorems |
| compute, compute_handle, compute_scheduler, compute_laws, compute_order | compute pool machine, what handles report, object, theorems |
| actor_loop, actor_handling, actor_task | actor loop, request/reply, theorems, object |
| mailbox, mailbox_senders, mailbox_wakeups, mailbox_object | bounded mailbox with its condition variable, whose messages it takes, who can be woken, object |

## Where the code decides otherwise than its documentation

- Backoff: the guide's table starts at "restart 1: base", but the first restart after a start
  is immediate; before the k-th crash since the start restarts a child again, the delay
  `min(30 s, base * 2^min(k-1, 30))` must have passed since its last restart. So
  `base * (2^k - 2)` is a lower bound on the spacing of k restarts only up to the cap and to
  k = 31 (`Spacing.ClosedSpacingIff`). The count is cast to 32 bits first, so delays start
  over in budgets of 2^32 and more (`Backoff.TruncatedDelayIff`, `Spacing.DocumentedSpacingIff`).
- Restarts: `within` is documented as the window in which restarts are counted, but it is never
  read: all crashes since the last `ChildStarted` count. `RestartWindow.WindowIgnoredIff` says
  when this makes no difference, `RestartWindow.WindowForgotten` gives runs in which it does.
- Timers: the guide says cancelling removes the entry. A periodic entry that the running pass
  has taken out is pushed back afterwards and fires on; `TimerCancel.CancelExact` gives the
  exact condition; `TimerCancel.CancelledInTime` and `TimerCancel.CancelTooLate` say what the
  caller can rely on.
- Mailbox: `Block` is documented as waiting until space is available. Only `send` notifies,
  so receiving never wakes a blocked sender; `MailboxWakeups.BlockedSenderWakesIff` says when
  one can go on, `MailboxWakeups.SendersForgottenIff` which mailboxes can forget theirs.
- Supervisors: the actor forgets a child's crashes when it is started again, the plain
  counter never does; `RestartAgreement.AgreesExactlyIff` says when they decide alike.
- Round robin: dispatch is balanced within one task only while the 64-bit counter does not
  wrap, unless the number of workers divides 2^64 (`RoundRobin.BalanceExactIff`).
- Compute: `spawn` after `shutdown` panics instead of returning the `SchedulerShutdown` error
  its signature announces (`ComputeSchedulers.ComputeScheduler.Spawn`).

## Model

| member | source | states |
|---|---|---|
| RunQueues.StealSplits | src/scheduler/run_queue.rs:40-48 | stealing splits the queue in order, takes at most half, takes nothing only from a queue of at most one task, and never empties its victim |
| RunQueues.RunQueue.Pop | src/scheduler/run_queue.rs:23-26 | pop takes the front task, or reports an empty queue and leaves it |
| RunQueues.RunQueue.StealHalf | src/scheduler/run_queue.rs:40-48 | the thief gets the oldest half in order, the victim keeps the rest |
| Schedulers.Scheduler.TakeTicket | src/scheduler/work_stealing.rs:83 | the wrapped 64-bit counter names the queue that the ticket's position in the spawn order names |
| Schedulers.Scheduler.PopOwn | src/scheduler/work_stealing.rs:56-61 | a worker runs the oldest task of its own queue, or starts scanning if there is none |
| Schedulers.Scheduler.StealNext | src/scheduler/work_stealing.rs:62-64 | one steal attempt on the next other queue in index order |
| ScanOrder.StealAttempt | src/scheduler/work_stealing.rs:62-71 | an attempt on the next other queue in index order takes the older half of two or more tasks into the thief's hand, or moves on; it touches no other queue, its own included |
| ScanOrder.ScanTriesOthers | src/scheduler/work_stealing.rs:29-75 | after popping its empty queue a worker tries all other queues in index order, each once; if it gives up, each of them held at most one task at some moment of the scan |
| Schedulers.Scheduler.Perform | src/scheduler/work_stealing.rs:50-93 | the objects follow every interleaving of workers, spawners and shutdown |
| ExactlyOnce.CountNext | src/scheduler/work_stealing.rs:50-85 | no event but taking a ticket changes how often any task occurs in the system |
| ExactlyOnce.ExactlyOnePlace | src/scheduler/work_stealing.rs:50-85 | in every reachable state a task is somewhere iff it was spawned, and it is in exactly one of: spawner, a queue position, a thief's hand, a worker, the finished list |
| ExactlyOnce.JoinedAfter | src/scheduler/work_stealing.rs:87-93 | joined workers have exited, and workers exit only after stop |
| ExactlyOnce.ShutdownAccounts | src/scheduler/work_stealing.rs:87-93 | once all workers are joined each spawned task finished exactly once or is left in exactly one queue or with its spawner; none is in a hand or on a worker |
| StealBounds.HungryNext | src/scheduler/work_stealing.rs:61-71 | only a worker's own successful pop can make it hungry, and a steal feeds the thief without starving the victim |
| StealBounds.StealsBoundedByPops | src/scheduler/work_stealing.rs:50-77 | in every run successful steals plus hungry workers are at most workers plus successful pops |
| StealBounds.OnlyOwnerEmpties | src/scheduler/run_queue.rs:43-47 | a non-empty queue stays non-empty in every run in which its owner does not pop |
| StealBounds.RankNext | src/scheduler/work_stealing.rs:50-77 | the rank (unpopped tasks, hungry workers, unpushed tasks) never rises and falls on every productive event |
| StealBounds.WorkSettles | src/scheduler/work_stealing.rs:50-77 | a run without new tickets has at most n(n+3)+N(n+1) productive steps for n unpopped tasks and N workers |
| StealBounds.SettlesOnlyWhenDone | src/scheduler/work_stealing.rs:50-77 | in every reachable state without stop the existing threads can still take a productive step iff some task is unpopped, and can go on until none is, as long as running jobs return |
| StealBounds.OwnerGetsThereSoon | src/scheduler/work_stealing.rs:50-77 | in any stretch of a run without productive steps, spawns and stop, a worker with a queued or stolen task takes boundedly many events of its own |
| StealBounds.FairRunsPopEverything | src/scheduler/work_stealing.rs:50-77 | every run without spawns and stop in more than n(n+3)+N(n+1) stretches, in each of which all workers take more than N+2 events and held tasks are pushed, ends with every task popped |
| StealBounds.ShutdownDrains | src/scheduler/work_stealing.rs:87-93 | after stop each worker takes at most N+n+2 more steps and, until it exits, can always take one |
| Shutdown.ShutdownCompletes | src/scheduler/work_stealing.rs:87-93 | after shutdown set the flag the existing threads can reach the state in which every worker has exited and is joined |
| TicketOrder.OrderKept | src/scheduler/work_stealing.rs:56-71 | without pushes by spawners every queue followed by its owner's stolen hand stays strictly increasing in spawn order, also while it is robbed mid-transfer |
| TicketOrder.PushKeepsOrderIff | src/scheduler/work_stealing.rs:79-85 | a spawner's push keeps an ordered state ordered iff the queue's owner is not scanning, all tasks queued there are older and all in its hand younger |
| TicketOrder.OrderKeptIff | src/scheduler/work_stealing.rs:50-85 | a run from an ordered state is ordered in every state iff each of its pushes meets that guard |
| TicketOrder.QuietIsOrdered | src/scheduler/work_stealing.rs:56-71 | sorted queues with no scan or transfer in progress satisfy the order invariant |
| TicketOrder.PopsInOrder | src/scheduler/work_stealing.rs:56-59 | between two of its own successful steals a worker runs tasks in spawn order |
| TicketOrder.SpawnsCanReorder | src/scheduler/work_stealing.rs:79-85 | pushes out of that order are reachable: a run from the start that leaves a queue out of order |
| RoundRobin.FairShare | src/scheduler/work_stealing.rs:83 | k consecutive tickets within one counter cycle give each queue the floor or ceiling of k/n |
| RoundRobin.TicketsGoRound | src/scheduler/work_stealing.rs:83 | the first ticket of a counter cycle goes to queue 0, each further one to the queue after the last |
| RoundRobin.RoundRobinBalance | src/scheduler/work_stealing.rs:83 | in any window of tickets that crosses m wraps of the counter two queues' shares differ by at most m + 1: by one without a wrap, by two across one |
| RoundRobin.BalanceExactIff | src/scheduler/work_stealing.rs:83 | d bounds that difference in all windows crossing at most m wraps iff d >= m + 1, or there is one worker, or d >= 1 and the worker count divides 2^64 |
| RoundRobin.BalancedAcrossWrapsIff | src/scheduler/work_stealing.rs:83 | every window is balanced within 1 iff the number of workers divides 2^64 |
| RoundRobin.DispatchedHome | src/scheduler/work_stealing.rs:79-85 | in a run without successful steals every task is queued on and run by the worker its ticket names |
| Timers.StablePartition | src/timer/service.rs:145-162 | the due entries and the others are the one order-preserving split of the list by the due test |
| TimerServices.TimerService.TakeDue | src/timer/service.rs:146-161 | the index-and-remove loop computes that split in place |
| TimerServices.TimerService.KeepOthers | src/timer/service.rs:230-233 | cancel keeps exactly the entries of other ids, in order |
| TimerOrder.StableFilter | src/timer/service.rs:230-233 | cancel splits the list into the entries of other ids, in order, and those of the id; there is only one such split |
| TimerOrder.RetainKeeps | src/timer/service.rs:230-233 | an entry is resident after a cancel iff it was before and has another id, and two such entries keep their order |
| TimerServices.TimerService.Perform | src/timer/service.rs:129-185 | the object follows every interleaving of the pass with schedule, cancel and shutdown |
| TimerLaws.IdsConserved | src/timer/service.rs:141-181 | over every run each id drawn is in exactly one of: with its scheduler, resident, in flight, spent, cancelled |
| TimerLaws.OneShotFiresOnce | src/timer/service.rs:206 | when a one-shot is about to fire its message was never taken before, so the "timer fired twice" expectation holds |
| TimerLaws.DriftFree | src/timer/service.rs:171-180 | the n-th delivery of an id goes to its actor, is made for first + n*period exactly, and never before that time |
| TimerOrder.DeliveredAsScheduled | src/timer/service.rs:193-228 | in every run the n-th delivery of a timer goes to the actor the schedule call named, for the clock time of the call plus the delay asked for plus n periods |
| TimerOrder.PushedLast | src/timer/service.rs:171-208 | a scheduled or re-pushed entry waits behind all others |
| TimerOrder.FirstComeFirstServed | src/timer/service.rs:141-181 | an entry is never delivered before one that waits ahead of it and is due no later, unless that one is cancelled |
| TimerCatchUp.OneTickPerPass | src/timer/service.rs:141-181 | two deliveries of one id are made in different passes, in order |
| TimerCatchUp.TicksBounded | src/timer/service.rs:141-181 | by clock T a timer of period p first due at s0 has ticked at most floor((T-s0)/p)+1 times, and not before s0 |
| TimerCatchUp.CaughtUp | src/timer/service.rs:141-181 | a pass read at T >= s0 that finds the resident timer not due finds exactly floor((T-s0)/p)+1 ticks made |
| TimerCancel.CancelExact | src/timer/service.rs:230-233 | after cancel(id) some run fires id again iff the pass had taken the entry and not fired it yet, or was about to re-push it and stop was not set |
| TimerCancel.GoneAfter | src/timer/service.rs:230-233 | an id that is neither resident nor in flight is never delivered again in any run |
| TimerCancel.SilencedAfter | src/timer/service.rs:137-139 | once stop is set and the pass is past collecting, an id it will not fire is never delivered |
| TimerOrder.StoppedSilences | src/timer/service.rs:235-240 | once shutdown set the flag and the pass is past collecting, what that pass has not taken is never delivered |
| TimerCancel.CancelledInTime | src/timer/service.rs:230-233 | a timer, one-shot or periodic, cancelled before its first due time is never delivered |
| TimerCancel.CancelTooLate | src/timer/service.rs:141-169 | no more can be relied on: for every time T from the first due time on, some run has the timer undelivered at T, cancelled at T and delivered afterwards |
| Backoff.DelayAsDocumented | src/supervision/supervisor_actor.rs:57-63 | for counts below 2^32 the delay is min(30s, base*2^min(max(n-1,0),30)) |
| Backoff.DefaultDelays | src/supervision/strategy.rs:20-28 | for the default base of 100 ms the delays are 100, 200, ..., 25600 ms and then 30 s |
| Backoff.DelayRepeats | src/supervision/supervisor_actor.rs:59 | the cast makes the delays repeat every 2^32 counts |
| Backoff.DocumentedMonotone | src/supervision/supervisor_actor.rs:57-63 | that delay never falls as the count rises |
| Backoff.TruncatedDelayIff | src/supervision/supervisor_actor.rs:59 | from 2^32 on, the cast keeps the delay right iff the base is zero, the truncated shift is maximal or the cap is reached |
| Backoff.NoOverflowIff | src/supervision/supervisor_actor.rs:60-61 | the multiplication never panics for any count iff base*2^30 is a duration, iff base < 2^34 s |
| Backoff.DelaySumClosed | src/supervision/supervisor_actor.rs:57-63 | the delays 2..k add up to base*(2^k - 2) while uncapped and k <= 31 |
| Backoff.DelaySumClosedIff | src/supervision/supervisor_actor.rs:57-63 | for k >= 2 the delays 2..k add up to at most base*(2^k - 2), with equality iff base is 0 or k <= 31 and base*2^(k-1) is within the cap |
| Supervision.OneForOneProjection | src/supervision/supervisor_actor.rs:69-135 | after any messages a child's entry is that of a single-child machine run on its messages alone |
| Supervision.PanicProjection | src/supervision/supervisor_actor.rs:69-135 | a panic of the supervisor is a panic of one child's machine |
| Statuses.PanicsIff | src/supervision/supervisor_actor.rs:84-90 | the supervisor panics iff the delay for some crash overflows, budget or not |
| Supervision.InterleavingIrrelevant | src/supervision/supervisor_actor.rs:69-135 | message sequences with equal per-child subsequences lead to the same outcome, panic included |
| Supervisors.SupervisorActor.Handle | src/supervision/supervisor_actor.rs:69-151 | each branch of handle changes the children as the message machine does; GetStatus replies one status per child, with the entry's name, count and liveness, and changes nothing |
| Supervisors.SupervisorActor.HandleAll | src/supervision/supervisor_actor.rs:69-151 | handling messages one after the other is the machine's run |
| Supervisors.SupervisorActor.ReportAfter | src/supervision/supervisor_actor.rs:136-149 | after any messages GetStatus reports exactly the children ever started, each with its last name, its crashes since its last start and whether its last message left it running |
| Statuses.EntryMeaning | src/supervision/supervisor_actor.rs:69-135 | a child's entry is read off its messages: last name, crashes since the last start, and alive iff started last or last restarted in budget and after its delay |
| Supervisors.Supervisor.HandleChildFailure | src/supervision/supervisor.rs:47-71 | the child's count rises by one and restart is answered iff it is within the maximum |
| Supervisors.Supervisor.HandleAll | src/supervision/supervisor.rs:47-71 | the answers to a failure sequence compare each child's occurrences so far with the maximum |
| Spacing.RestartSpacing | src/supervision/supervisor_actor.rs:91-113 | with a budget below 2^32, a child's k-th restart since its last start comes at least the sum of the documented delays 2..k after its first, although deferred crashes use up counts |
| Spacing.RestartSpacingTight | src/supervision/supervisor_actor.rs:91-113 | for every k < 2^32 in budget whose delay does not overflow some run spaces k restarts by exactly that sum |
| Spacing.PlanAttained | src/supervision/supervisor_actor.rs:91-125 | any increasing choice of crash counts from 1 on is that of some run's restarts, spaced by exactly the delays computed for them, if the base is not zero |
| Spacing.SpacingExact | src/supervision/supervisor_actor.rs:57-125 | for every budget, d lies between the 1st and k-th restart of every run iff it is at most the sum of computed delays of every choice of k increasing crash counts from 1 within the budget |
| Spacing.DocumentedSpacingIff | src/supervision/supervisor_actor.rs:59 | the documented sum is such a d iff the budget is below 2^32, or the base is 0 or at least 30 s, or k is 1 or exceeds the budget: beyond, the cast shortens delays |
| Spacing.ClosedSpacingIff | src/supervision/supervisor_actor.rs:57-113 | base*(2^k - 2) is such a d iff k restarts cannot happen, or the base is 0, or the budget is below 2^32, k <= 31 and base*2^(k-1) is within the cap |
| Restarts.RestartDecision | src/supervision/supervisor_actor.rs:83-125 | for every budget, a crash restarts iff the crashes since the start are in budget and no restart happened yet or the delay computed for that count has elapsed |
| Spacing.DocumentedDecision | src/supervision/supervisor_actor.rs:57-125 | below 2^32 and with a clock that never goes back, the delay in that condition is the documented one |
| Restarts.RestartBudget | src/supervision/supervisor_actor.rs:84-125 | the count equals the crashes since the last start, restarts never exceed the maximum, over budget the child is dead |
| RestartAgreement.ZeroBackoffRuns | src/supervision/supervisor_actor.rs:92-125 | with zero backoff a known child is alive iff its crashes since the start are in budget |
| RestartAgreement.AgreesExactlyIff | src/supervision/supervisor.rs:47-71 | with zero backoff both supervisors decide every crash alike iff the budget is 0, or every child that crashes is started before its first crash and either crashes at most the budget in all or is never started between two of its crashes |
| RestartAgreement.AgreesWithCounter | src/supervision/supervisor.rs:47-71 | in particular they agree if every child is started once, before its crashes |
| RestartAgreement.SecondStartDisagrees | src/supervision/supervisor.rs:48-49 | an instance of disagreement: start, crash, start, crash with a budget of one |
| RestartWindow.WindowIgnoredIff | src/supervision/strategy.rs:11-14 | with zero backoff the code decides every crash as the documented window does iff each crash of a child that has used up its budget comes within the window of the first restart since its start |
| RestartWindow.WindowForgotten | src/supervision/supervisor_actor.rs:90 | an instance of the opposite, for any window: with a budget of one a crash a window after the first is given up on |
| Compute.CountNext | src/compute/scheduler.rs:68-141 | no event but a submission changes how often a task occurs in queue, hands, results, discarded and rejected |
| ComputeLaws.OneOutcome | src/compute/scheduler.rs:123-139 | a task yields at most one result, and a worker about to send always finds the one-place channel empty |
| ComputeLaws.ResultDecidedBySamples | src/compute/scheduler.rs:74-103 | a result is Cancelled iff one of the two samples saw the flag, otherwise what the job did; the job started iff the first sample saw it unset, and once |
| ComputeLaws.AfterAllExited | src/compute/scheduler.rs:147-153 | after all workers exit each task has its one result, or was dropped or rejected and its job never started |
| ComputeLaws.CancelBeforeStart | src/compute/scheduler.rs:76-79 | cancelled before the first sample: the job never runs and any result is Cancelled |
| ComputeLaws.CancelExact | src/compute/handle.rs:32-34 | a result sent after a cancel is Cancelled iff at the cancel the second sample had not yet seen the flag unset |
| ComputeLaws.TryRecvMeaning | src/compute/handle.rs:63-74 | try_recv: a value iff the job returned it and no sample saw a cancel; None iff the result is still to be sent, or was taken while the worker has not dropped the sender yet; SchedulerShutdown with nothing received iff the task was dropped with the queue, all workers having exited and its job never started |
| ComputeLaws.TryRecvFailure | src/compute/handle.rs:36-56 | try_recv reports "Task cancelled" iff a sample saw the cancel, the job's own panic message iff it panicked and none did, otherwise only the scheduler's shutdown |
| ComputeOrder.UncancelledResult | src/compute/scheduler.rs:81-103 | a task its handle never cancelled has as its result what its own job returned or panicked with |
| ComputeOrder.TakenInSubmissionOrder | src/compute/scheduler.rs:74-141 | over every run tasks taken, then queued, dropped and rejected are all submissions in order: first in, first out, none skipped |
| ComputeOrder.ReceivedOnce | src/compute/handle.rs:63-74 | a handle receives its result at most once |
| ComputeOrder.NothingLostBeforeStop | src/compute/scheduler.rs:70-107 | without shutdown no task is dropped or refused by a pool with workers, and no worker leaves while a sender is left |
| ComputeOrder.EveryTaskCanFinish | src/compute/scheduler.rs:68-109 | while the pool is not stopped and a worker is left, every accepted task without a result can still get one, as long as jobs return |
| ComputeLaws.ShutdownDrains | src/compute/scheduler.rs:147-153 | after stop a worker takes at most seven more steps and until it exits can always take one |
| ComputeSchedulers.ComputeScheduler.Spawn | src/compute/scheduler.rs:115-141 | spawn panics iff shutdown has taken the scheduler's sender, even if contexts hold clones of it; otherwise the task is enqueued, or refused iff no worker receives any more |
| ComputeSchedulers.ComputeScheduler.TryReceive | src/compute/handle.rs:63-74 | takes the result if there is one, otherwise tells pending from disconnected |
| ComputeSchedulers.ComputeScheduler.Perform | src/compute/scheduler.rs:68-153 | the object follows every interleaving of submit, cancel, receive, work and shutdown |
| ActorLoop.ConsumedIsPrefix | src/runtime.rs:138-223 | what the loop consumed is a prefix of what the mailbox accepted, and the difference never exceeds the capacity |
| ActorLoop.StopDrains | src/runtime.rs:160-188 | the loop leaves only through the stop branch, having consumed all accepted up to the try_recv that found nothing; only later arrivals are lost |
| ActorHandling.ConsumedAreHandled | src/runtime.rs:162-209 | over every run the handler is invoked for exactly the consumed envelopes of its message type, in order, once each |
| ActorHandling.LeavingHasHandled | src/runtime.rs:160-188 | when the loop is left every envelope of the right type accepted up to the empty try_recv has been handled |
| ActorHandling.StopEnds | src/runtime.rs:159-188 | once stopped the loop takes at most three steps per envelope and four more, and can always take one until it has ended |
| ActorHandling.AcceptedAreSent | src/runtime.rs:233-309 | over every run the accepted envelopes are those of the calls made while the actor was registered, running and had room, in order and with their payloads; a call's answer says so |
| ActorLoop.RepliesCorrelate | src/actor/context.rs:93-101 | a value in a request's reply channel was put there by the handler invocation for that request and by no other; fire-and-forget invocations write to none |
| ActorLoop.HandlerSeesOwnRequest | src/actor/context.rs:105-107 | inside a handler the reply slot is the current envelope's own, whatever it held before |
| ActorLoop.RepliesPerRequest | src/runtime.rs:277-309 | over every run only a request that was handled has replies, and its channel has had as many values put in as taken out, or one more, dropped handles included |
| ActorHandling.RepliesAreGiven | src/actor/context.rs:93-101 | over every run the values in reply channels are exactly those given to reply by handlers of requests whose handle is there, in order |
| ActorHandling.TakesWhatIsGiven | src/runtime.rs:40-63 | a handle can take a reply iff its handler has given one more than it has taken and it is not dropped |
| ActorTasks.ActorTask.IsRequest | src/actor/context.rs:105-107 | inside a handler it answers true iff the envelope being handled is a request, whatever the slot held before |
| ActorTasks.ActorTask.DrainAll | src/runtime.rs:160-188 | undisturbed, the stop branch consumes the whole mailbox in order, calls the handler for each envelope of the right type, and ends |
| ActorTasks.ActorTask.Perform | src/runtime.rs:159-309 | the object follows every interleaving of senders, reply handles, the loop and its handlers |
| Mailboxes.MailboxIsFifo | src/mailbox/queue.rs:53-97 | under any interleaving and wakeups the queue is the unremoved suffix of the accepted messages within its bound, removed is an ordered merge of received and dropped, and under Reject and Block nothing is dropped |
| MailboxSenders.AcceptedAreOwn | src/mailbox/queue.rs:53-77 | over every run the accepted messages are those of the calls that found room or could evict, at once or when they woke, each with the message it was called with |
| Mailboxes.MissedAreEvicted | src/mailbox/queue.rs:53-97 | over every run the receivers miss exactly as many accepted messages as there were sends that found a full queue under DropLowPriority |
| MailboxWakeups.BlockedSenderWakesIff | src/mailbox/queue.rs:62-97 | in any state, without new sends and spurious wakeups, a blocked sender can still push iff the capacity is not 0 and some blocked sender has been notified; receiving is irrelevant |
| MailboxWakeups.WaitingReceiverWakesIff | src/mailbox/queue.rs:80-89 | likewise a waiting receiver can be served iff it was notified and a message is queued, or a blocked sender can still push |
| MailboxWakeups.SendersForgottenIff | src/mailbox/queue.rs:62-67 | a mailbox can reach a state with room in which all its blocked senders sleep until somebody sends again iff its policy is Block and its capacity is not 0 |
| MailboxWakeups.ReceiversForgottenIff | src/mailbox/queue.rs:74-89 | a mailbox can reach a state with a queued message, a waiting receiver and nobody notified iff its policy is Block and its capacity is not 0 |
| MailboxObjects.Mailbox.Perform | src/mailbox/queue.rs:53-97 | the object follows every interleaving of senders, receivers, notifications and spurious wakeups |

## Left out

- RestartWindow.WindowIgnoredIff: with a backoff the documentation does not say whether a deferred crash counts as a restart, so the documented window is compared for zero backoff only.
- Real threads, memory orderings, mutex poisoning, `sleep`, `yield_now` and tracing: each event is one sequentially consistent step, and loops that wait appear as events that are not enabled.
- crossbeam-channel internals: a channel is a FIFO that is empty, full or disconnected.
- ActorLoop.OutcomeOf: with a mailbox capacity of 0 a send to a loop waiting in `recv_timeout` succeeds in the code; here such a mailbox is always full.
- Panics of actor tasks on scheduler workers, which are not caught and end the worker's thread.
- TimerServices.TimerService.Fire: the delivery of a due timer into its actor's mailbox; the model records the delivery and its target actor, not the lookup in the sender map nor the blocking send.
- Wrap-around of the 64-bit timer, task and request ids and of the restart counters: they are unbounded here; only the scheduler's ticket counter wraps.
- `Instant` overflow when a duration is added to the clock.
- ComputeHandles.MapResult: the "Type mismatch" answer, which cannot occur because `spawn` boxes the value type its handle expects, and the `Err` and `Timeout` results, which no worker sends.
- `recv` and `recv_timeout` of handles, which differ from `try_recv` only in waiting.
- `task_timeout` and `queue_capacity` of the compute pool, which the code does not enforce.
- The reduction counter, which only decides when a worker thread yields.
- Runtime bookkeeping (`actors` map, actor ids, stats), resource registry, capabilities and child specifications' restart policies, which the code never reads: thin records that would add easy members.
- `Runtime::shutdown`'s fixed wait before it clears the sender map.
- Contents of the log messages and of crash reasons.
