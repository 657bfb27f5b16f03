# Verified model of beman.net's event loops and algorithms

beman.net is a sender/receiver networking library: a single-threaded proactor with three back ends
(`poll`, IOCP, io_uring), a completion/cancellation handshake on top of it, and several small
stateful algorithms beside it. This project models that core in Dafny and proves what the library is
for: whatever the environment does, each operation reports to its receiver exactly once, with the
right signal; the containers behind it hold what they should; and the algorithms beside it do what
they promise, or do so exactly under a stated condition.

`dafny verify dfyconfig.toml` checks everything.

| module | file of the repository | what it is about |
|---|---|---|
| `Handshake` | `include/beman/net/detail/sender.hpp` | the counter that arbitrates between an operation and its stop callback, for every back end's order of reports |
| `PollLoop`, `PollLaws`, `PollWait`, `PollContext`, `IoContext`, `PollRefines` | `include/beman/net/detail/poll_context.hpp`, `io_context.hpp` | the poll loop as a state machine, what its actions come to in terms of system calls alone, its choice of work and timeouts, the objects that carry it out, the driver `run`, and the refinement of the handshake |
| `SortedList`, `Timers` | `include/beman/net/detail/sorted_list.hpp` | the intrusive timer list, on the heap, and the poll loop's use of it in every run |
| `Container` | `include/beman/net/detail/container.hpp` | the slot table behind socket identifiers |
| `Uring` | `include/beman/net/detail/uring_context.hpp` | the ring's counters, and the operations behind its entries |
| `Buffered` | `examples/demo_stream.hpp` | reading up to a sentinel through a compacting buffer |
| `WhenAny` | `examples/demo_algorithm.hpp` | the race of n children on two atomic counters |
| `Limit` | `examples/postgres.cpp` | the asynchronous mutex, with re-entrant completion |
| `RepeatEffect`, `AsyncRun` | `include/beman/net/detail/repeat_effect_until.hpp`, `io_context.hpp` | the loop combinator, and `async_run` built from it, driving the same context as `run` |
| `HeaderBundle` | `bin/mk-compiler-explorer.py` | the header closure and its topological emission |

Each state machine has three layers: a step function over values, with an environment that picks
outcomes, orders and moments; lemmas about all its runs; and, where the source updates objects in
place, a class whose methods are proved to take exactly those steps. Every lemma switches automatic
induction off: what is proved rests on the proofs that are written down.

## What the model assumes

- Stop requests come on the loop's thread, and not between the registration of the stop callback and
  the return of `submit`. A token that is already stopped at `start` is modelled.
- A handler is the sequence of calls that follows a delivery: in the poll loop a delivery is always
  the last thing an operation does to the loop (`poll_context.hpp:99`, `106`, `153`, `191-195`), so
  what a handler does inside it is the same as what it does right after it.
- A socket is released only while none of its operations is on the loop, and an operation is started
  once. Calls outside these rules are not made (`IoContext.Perform`).
- `blocking` of a socket record is always true (`poll_context.hpp:33`), so that `add_outstanding`
  always registers.
- System calls, clocks and the kernel are parameters: `poll`'s report, the result of a system call,
  the clock, the size of a chunk, how many entries the kernel takes. A finite list of such answers
  stands for a prefix of the environment's behaviour.

## Where the code falls short of what one would expect

Each of these is proved with the exact condition under which it happens.

- With `poll`, starting an operation on a token that is already stopped ends in `std::terminate`: the
  callback runs inside `emplace`, before the operation is registered. The only other way there is to
  stop an operation that was lost (`Handshake.TerminatedOnlyAtStart`, `PollLoop.TerminatesExactly`;
  runs that get there: `PollLoop.StoppedTokenTerminates`, `PollLoop.StoppingALostOneTerminates`).
- `run_one` takes an operation off the loop before it calls `work` and ignores the result, so an
  operation whose call would block after all is lost without a signal (`PollLoop.LosesExactly`; a run
  in which it happens: `PollLoop.StaleReadinessLoses`).
- The timeout handed to `poll` is reduced to 32 bits: a timer 2^32 - 1 ms away makes the wait
  unbounded (`PollWait.WhenWaitsAreBounded`, `PollWait.FarTimerWaitsForever`).
- `now` is not refreshed in the wait loop. As long as the wait is bounded, two completed idle waits
  always suffice before the front timer fires if and only if at least one whole millisecond and fewer
  than 2^31 are left (`PollWait.TwoIdleWaitsExactly`). Below that the timeout is 0 and there is no
  bound (`PollWait.LessThanAMillisecondSpins`); above it the 32-bit timeout is too short
  (`PollWait.FarTimerWakesEarly`).
- `read` splits at the first sentinel for characters and for literals of 1 to 1022 characters. With
  an empty literal a read from an empty stream reports the end instead of the sentinel; one of 1023
  or more characters is not found in some streams that contain it: everything is held back, the
  window handed to `receive` is empty, and the count of zero is taken for the end of the stream
  (`Buffered.SplitsExactlyWhen`; `Buffered.SplitsExactly` says for which streams).
- `build_header` repeats an empty round forever exactly if a reachable header includes itself,
  directly or not (`HeaderBundle.Build`).

## Model

| member | source | states |
|---|---|---|
| Handshake.DeliveredExactlyOnce | include/beman/net/detail/sender.hpp:74-133 | in every run, for every order in which a back end reports the two parties and wherever the stop falls: nothing is sent while a report is owed, exactly one signal once none is |
| Handshake.LastReportIsDelivered | include/beman/net/detail/sender.hpp:74-133 | the one signal is what the party that reported last said, read off the events without the counter |
| Handshake.ExtraCompleteIsSilent | include/beman/net/detail/sender.hpp:113-115 | the extra `complete` after a submission that was `ready` sends nothing |
| Handshake.TerminatedOnlyAtStart | include/beman/net/detail/sender.hpp:103-112 | `std::terminate` is reached if and only if the back end cancels synchronously and the operation is started on a stopped token; the counter is then 2 |
| Handshake.RunKeepsInv | include/beman/net/detail/sender.hpp:74-133 | in every run the counter equals the number of parties that have yet to report, and the callback is armed exactly while a stop can still matter |
| Handshake.StepKeepsInv | include/beman/net/detail/sender.hpp:74-133 | every event the environment may produce keeps the invariant of the handshake |
| Handshake.InFlightIsHeld | include/beman/net/detail/sender.hpp:103-133 | unless the program was terminated, the back end holds the operation exactly if it was accepted and neither reported nor, where stopping ends it at once, stopped |
| Handshake.StopIsRemembered | include/beman/net/detail/sender.hpp:107-112 | the token is stopped exactly if a stop was requested before |
| Handshake.RunsOn | include/beman/net/detail/sender.hpp:74-133 | a behaviour goes on with any events that can be taken where it ended |
| Handshake.UpstreamIsForwarded | include/beman/net/detail/sender.hpp:50-57 | a failure or stop upstream reaches the receiver as it is, the operation never starts, and nothing that can still happen sends anything |
| Handshake.SenderState.Complete | include/beman/net/detail/sender.hpp:117-122 | the object's state afterwards is what the model says of a completion: only the last party sends, and deregisters the callback |
| Handshake.SenderState.Fail | include/beman/net/detail/sender.hpp:123-128 | the same for an error, with its code |
| Handshake.SenderState.Cancel | include/beman/net/detail/sender.hpp:129-133 | the same for a cancellation, which leaves the callback registered |
| Handshake.SenderState.CallbackComplete | include/beman/net/detail/sender.hpp:79-85 | the callback's report: sends stopped if it is the last |
| Handshake.SenderState.Callback | include/beman/net/detail/sender.hpp:74-78 | the callback and the scheduler's `cancel` carry out the model's step for each back end |
| Handshake.SenderState.Begin | include/beman/net/detail/sender.hpp:103-116 | `start` up to the result of `submit` carries out the model's step, on a stopped token too |
| Handshake.SenderState.FinishStart | include/beman/net/detail/sender.hpp:113-115 | the rest of `start` carries out the model's step |
| Handshake.SenderState.RequestStop | include/beman/net/detail/sender.hpp:74-78 | a stop request runs the callback if it is registered, and carries out the model's step |
| PollLoop.StepKeepsInv | include/beman/net/detail/poll_context.hpp:111-199 | every call and every dispatch keeps: the two vectors index-aligned and without duplicates, the timers sorted, and each operation on the loop once, counter 1 and callback armed, or delivered to once |
| PollLoop.ExactlyOnce | include/beman/net/detail/poll_context.hpp:95-199 | in every run exactly the started operations are known; each has been sent nothing while on the loop or lost and one signal otherwise; scheduled tasks are conserved |
| PollLoop.EmptyMeansDoneExactly | include/beman/net/detail/poll_context.hpp:122-163 | when a run leaves the loop empty: everything started was delivered to exactly once and every task ran as often as it was scheduled, if and only if nothing was lost, that is, if and only if no dispatch met a call that would block |
| PollLoop.NothingLostExactly | include/beman/net/detail/poll_context.hpp:149-154 | a run loses nothing if and only if no dispatch in it met a call that would block |
| PollLoop.EmptyMeansDone | include/beman/net/detail/poll_context.hpp:122-163 | in particular everything is done after a run with no stopped token at a start and no result "would block" |
| PollLoop.TerminatesExactly | include/beman/net/detail/poll_context.hpp:187-199 | a step terminates the program if and only if it starts an operation on a stopped token or stops a lost one |
| PollLoop.LosesExactly | include/beman/net/detail/poll_context.hpp:149-154 | a step loses an operation if and only if it dispatches it and its call would block |
| PollLoop.BenignRuns | include/beman/net/detail/poll_context.hpp:122-199 | without these two no run terminates the program or loses anything |
| PollLoop.StaleReadinessLoses | include/beman/net/detail/poll_context.hpp:149-154 | a concrete run from the empty loop in which a receive is reported readable, would block, and is gone from the loop without a signal |
| PollLoop.StoppingALostOneTerminates | include/beman/net/detail/poll_context.hpp:187-199 | that run followed by a stop request terminates the program |
| PollLoop.StoppedTokenTerminates | include/beman/net/detail/sender.hpp:103-112 | a concrete run that terminates at the start of an operation on a stopped token |
| PollLoop.StepDelivers | include/beman/net/detail/poll_context.hpp:95-110 | independently of the counters: which operation a step sends what, and that only operations that were sent nothing are sent something |
| PollLoop.DispatchedWasReady | include/beman/net/detail/poll_context.hpp:149-155 | the operation the backward scan dispatches is one whose own descriptor was reported ready for its own events or in error, and it leaves the loop |
| PollLoop.RemoveKeepsAligned | include/beman/net/detail/poll_context.hpp:111-118 | swap-with-last removal takes out exactly one operation and leaves every other with its own descriptor and mask |
| PollLoop.AddKeepsAligned | include/beman/net/detail/poll_context.hpp:168-185 | registration appends the operation with its own descriptor and mask |
| PollLoop.TimersCompleteInOrder | include/beman/net/detail/poll_context.hpp:104-110 | no timer completes before its deadline, and a fired timer has the least deadline of all pending ones |
| PollLoop.TasksAreConserved | include/beman/net/detail/poll_context.hpp:95-103 | in every run the scheduled tasks are, as a multiset, those that ran and those still queued |
| PollLoop.BegunAreKnown | include/beman/net/detail/sender.hpp:103-116 | the operations the loop accounts for are exactly those that were started |
| PollLoop.LastHit | include/beman/net/detail/poll_context.hpp:149-150 | the scan finds the last entry that is ready, or none if there is none |
| PollLaws.DispatchSends | include/beman/net/detail/poll_context.hpp:204-342 | what the dispatched operation is sent, for each kind of operation and each result of its system call: a transfer completes or ends with the peer's reset, an accept fails with it, a connect is sent the socket's error, and nothing is sent if the call would block |
| PollLaws.DispatchAccepts | include/beman/net/detail/poll_context.hpp:216-225 | a dispatch changes the socket table exactly if an accept returned, and enters the handle it returned |
| PollLaws.BeginSends | include/beman/net/detail/poll_context.hpp:241-260 | what starting an operation sends at once: a time that has come, a connection made or refused at once; nothing otherwise, and then the operation is on the loop |
| PollLaws.BeginRegisters | include/beman/net/detail/poll_context.hpp:168-185 | the descriptor and the events each kind of operation is registered with |
| PollLaws.StopSends | include/beman/net/detail/poll_context.hpp:187-199 | a stop request sends stopped to an operation on the loop and takes it off; on one already delivered to it changes nothing |
| PollLaws.LastTaskFirst | include/beman/net/detail/poll_context.hpp:200-203 | the task scheduled last runs first and leaves the others as they were |
| PollLaws.ReadyIsFound | include/beman/net/detail/poll_context.hpp:149-150 | an entry with input or output it waits for, or in error, is found or a later one is; and only such an entry is found |
| PollLaws.RunOneDecides | include/beman/net/detail/poll_context.hpp:122-163 | what `run_one` turns to: due timer, task, descriptors, in this order; in the wait the first round with a failure that is not retried, an entry that is ready, or a due timer decides, in this order |
| PollLaws.ReadyIsServed | include/beman/net/detail/poll_context.hpp:148-156 | with an entry that is ready in some round `run_one` does not stay blocked |
| PollLaws.FirstEndDecides | include/beman/net/detail/poll_context.hpp:130-161 | the same for the wait loop from any round on |
| PollRefines.LoopIsHandshake | include/beman/net/detail/poll_context.hpp:95-199 | every run of the loop is, for each operation that was not lost, a run of the handshake with the same counter; it is on the loop exactly while its handshake awaits a report, and afterwards has been sent what the last reporting party said |
| PollRefines.LoopRunsHandshakes | include/beman/net/detail/sender.hpp:74-133 | the events an operation sees in a run of the loop are a behaviour of the handshake with synchronous cancellation |
| PollRefines.StepReports | include/beman/net/detail/poll_context.hpp:149-199 | a step changes an operation's counter by at most one report, and only while its handshake awaits one |
| PollWait.NothingMeansEmpty | include/beman/net/detail/poll_context.hpp:122-129 | `run_one` returns 0 without a failure exactly if there are no tasks, timers or outstanding operations |
| PollWait.WhenWaitsAreBounded | include/beman/net/detail/poll_context.hpp:119-132 | on every pass of the wait loop the timeout is -1 if no timer is pending, and with a timer it is the milliseconds left, negative or -1 exactly if these, reduced to 32 bits, are |
| PollWait.FarTimerWaitsForever | include/beman/net/detail/poll_context.hpp:119-132 | a concrete run from the empty loop after which a timer is pending and the timeout is -1 |
| PollWait.TwoIdleWaitsExactly | include/beman/net/detail/poll_context.hpp:119-161 | when the timeout is not negative and `poll` idles at least that long: at most two completed idle waits pass before the front timer fires, in every environment, if and only if at least one whole millisecond and fewer than 2^31 are left at the entry of `run_one` |
| PollWait.TwoSpansDecide | include/beman/net/detail/poll_context.hpp:130-161 | for any length of the idle waits: two always suffice if and only if twice that length reaches the deadline |
| PollWait.FarTimerWakesEarly | include/beman/net/detail/poll_context.hpp:119-132 | a concrete run after which a timer 2^32 + 1 ms away gives the timeout 1, so that two waits do not suffice |
| PollWait.AtMostTwoIdleWaits | include/beman/net/detail/poll_context.hpp:130-161 | one half of that for one environment: with 1 to 2^31 - 1 whole milliseconds left, at most two completed idle waits pass, whatever number of interrupted ones |
| PollWait.LessThanAMillisecondSpins | include/beman/net/detail/poll_context.hpp:119-132 | with less than a millisecond left any number of idle waits can pass |
| PollWait.Wait | include/beman/net/detail/poll_context.hpp:130-161 | the wait loop ends with a report in which something is ready, or after one with a timer due at the clock read then |
| PollContext.Context.RunOne | include/beman/net/detail/poll_context.hpp:122-163 | makes the model's choice and takes exactly the action that belongs to it, on the loop and on the slot table, or none and returns 0; it calls `poll` once for each round it takes, each time with the model's timeout; with an entry that is ready for what it waits for, or in error, it does not stay blocked, and readiness it acts on is of that kind |
| PollContext.Context.WaitForWork | include/beman/net/detail/poll_context.hpp:130-161 | the wait loop carries out the choice of the model |
| PollContext.Context.Serve | include/beman/net/detail/poll_context.hpp:148-160 | after a return of `poll` exactly one thing happens: the last ready entry is dispatched, or without one the front timer fires if it is due by the clock read then, or nothing changes |
| PollContext.Context.Work | include/beman/net/detail/poll_context.hpp:151-154 | takes the found operation off both vectors, does its work and carries out the model's dispatch, whose results `PollLaws.DispatchSends` and `PollLaws.DispatchAccepts` state |
| PollContext.Context.Scan | include/beman/net/detail/poll_context.hpp:149-150 | the backward loop finds the last entry that is ready |
| PollContext.Context.ProcessTask | include/beman/net/detail/poll_context.hpp:95-103 | runs the top task, or returns 0 and changes nothing if there is none |
| PollContext.Context.ProcessTimeout | include/beman/net/detail/poll_context.hpp:104-110 | fires the front timer exactly if it is due |
| PollContext.Context.RemoveEntry | include/beman/net/detail/poll_context.hpp:111-118 | both vectors lose entry i, replaced by the last one |
| PollContext.Context.AddEntry | include/beman/net/detail/poll_context.hpp:168-185 | both vectors gain an entry, with the handle of the operation's socket and its mask |
| PollContext.Context.BeginOperation | include/beman/net/detail/poll_context.hpp:204-352 | `start` and the submission of each kind of operation, with its immediate outcomes, carry out the model's step |
| PollContext.Context.BeginOnStoppedToken | include/beman/net/detail/sender.hpp:103-112 | `start` on a stopped token finds the operation neither outstanding nor among the timers and terminates |
| PollContext.Context.StopOperation | include/beman/net/detail/poll_context.hpp:187-199 | the stop callback and `cancel` take the operation off the loop, report both parties, and carry out the model's step |
| PollContext.Context.ScheduleTask | include/beman/net/detail/poll_context.hpp:200-203 | pushes the task on the stack and keeps the invariant |
| PollContext.Context.Find | include/beman/net/detail/poll_context.hpp:188-190 | the index of the first entry that is the operation, or the length |
| IoContext.Run | include/beman/net/detail/io_context.hpp:155-161 | on a context with any history: `run` extends it by a legal run of the loop, handlers included, and returns the number of dispatches in the extension; when no work is left the loop is empty, and everything ever started, before it or during it, was delivered to exactly once and every task completed, if and only if nothing was lost; state, trace, count and end are a function of the environment |
| IoContext.TakeTurn | include/beman/net/detail/io_context.hpp:157-159 | one round of the loop: at most one dispatch, followed by its handler |
| IoContext.CallOnce | include/beman/net/detail/io_context.hpp:154-154 | one call of `run_one`, as an extension of the history by at most one dispatch; an end without a failure means an empty loop |
| IoContext.Handle | include/beman/net/detail/io_context.hpp:155-161 | the calls of a handler extend the run and dispatch nothing |
| IoContext.Perform | include/beman/net/detail/poll_context.hpp:51-68 | each call a handler may make carries out the model's step |
| IoContext.CallIsPossible | include/beman/net/detail/poll_context.hpp:51-68 | which calls can be made, in terms of the sockets, operations and tasks there are |
| IoContext.CallMeans | include/beman/net/detail/poll_context.hpp:51-203 | what each call does to the loop and sends at once |
| IoContext.DispatchNeverTerminates | include/beman/net/detail/poll_context.hpp:122-163 | a dispatch by itself never terminates the program |
| SortedList.RunIsOrdered | include/beman/net/detail/sorted_list.hpp:38-65 | after any inserts, erases and pops the list is ordered by key, and among equal keys by the time of insertion, newest first |
| SortedList.RunHoldsLive | include/beman/net/detail/sorted_list.hpp:38-65 | it holds exactly the entries inserted and neither erased nor popped, where popping takes the first in that order and erasing takes the given entry and no other |
| SortedList.InsertKeepsSorted | include/beman/net/detail/sorted_list.hpp:46-53 | insertion keeps the list sorted |
| SortedList.InsertAdds | include/beman/net/detail/sorted_list.hpp:46-53 | insertion adds the node and nothing else, and keeps nodes distinct |
| SortedList.EraseRemoves | include/beman/net/detail/sorted_list.hpp:56-65 | erasing removes the node by identity and nothing else; an absent one leaves the list unchanged |
| SortedList.SortedList.InsertNode | include/beman/net/detail/sorted_list.hpp:46-53 | on the heap: the linked nodes afterwards are the old ones with the node in front of the first that is not smaller; the chain ends, and its nodes are ordered by key and, among equal keys, by the time of their insertion, newest first |
| SortedList.SortedList.Place | include/beman/net/detail/sorted_list.hpp:46-53 | the loop with its cursor finds that place, and the writes keep the chain |
| SortedList.InsertKeepsDates | include/beman/net/detail/sorted_list.hpp:46-53 | a node inserted now goes in front of all older ones with the same key, and keeps the order by key and time |
| SortedList.DropKeepsDates | include/beman/net/detail/sorted_list.hpp:56-65 | taking any node out keeps that order |
| SortedList.SortedList.LinkAt | include/beman/net/detail/sorted_list.hpp:50-51 | the two pointer writes insert the node at the cursor and keep the chain |
| SortedList.SortedList.EraseNode | include/beman/net/detail/sorted_list.hpp:56-65 | on the heap: unlinks exactly the given node and returns it, or returns null and changes nothing; the order by key and time of insertion is kept |
| SortedList.SortedList.Remove | include/beman/net/detail/sorted_list.hpp:56-65 | the loop with its cursor finds the node by identity, and the write keeps the chain |
| SortedList.SortedList.UnlinkAt | include/beman/net/detail/sorted_list.hpp:60-62 | the pointer write takes the node at the cursor out and keeps the chain |
| SortedList.SortedList.PopFront | include/beman/net/detail/sorted_list.hpp:39-43 | returns the first node in that order and keeps the rest |
| SortedList.SortedList.TakeFront | include/beman/net/detail/sorted_list.hpp:39-43 | the pointer write takes the first node out and keeps the chain |
| SortedList.SortedList.PopFrontOr | include/beman/net/detail/sorted_list.hpp:33-33 | the key of the first node, which it takes out, or the default for an empty list |
| SortedList.SortedList.ValueOr | include/beman/net/detail/sorted_list.hpp:31-31 | the least key of all nodes, or the default for an empty list |
| SortedList.SortedList.Empty | include/beman/net/detail/sorted_list.hpp:29-29 | true exactly if there is no node |
| Timers.Replay | include/beman/net/detail/poll_context.hpp:104-110 | beside any run of the loop, the linked list, with the calls the loop makes on it, holds exactly the loop's timers, linked by deadline and among equal deadlines newest first |
| Timers.TimerQueue.Follow | include/beman/net/detail/poll_context.hpp:187-199 | one action of the loop: inserting, popping or erasing on the heap has the effect of the model's step on the timers |
| Timers.StepTimers | include/beman/net/detail/poll_context.hpp:343-352 | which actions of the loop change its timers, and how |
| Timers.TimerQueue.Add | include/beman/net/detail/poll_context.hpp:345-346 | inserting an operation's node on the heap inserts its timer in the order by deadline |
| Timers.TimerQueue.Erase | include/beman/net/detail/poll_context.hpp:193-193 | erasing an operation's node by identity takes out its timer and no other, and tells if it was pending |
| Timers.TimerQueue.PopFront | include/beman/net/detail/poll_context.hpp:106-106 | popping the front node takes out the first timer and gives its operation |
| Timers.TimerQueue.ValueOr | include/beman/net/detail/poll_context.hpp:131-131 | the first deadline, or the default if no timer is pending |
| Timers.EraseAgrees | include/beman/net/detail/sorted_list.hpp:56-65 | as each operation has one node, identity of nodes and equality of timers agree, and the node is at the timer's place |
| Container.InsertRefines | include/beman/net/detail/container.hpp:36-45 | insertion adds one entry under an identifier that is not live and touches no other; the free list stays well formed; the table grows only if every slot is used |
| Container.EraseRefines | include/beman/net/detail/container.hpp:48-50 | erasing removes the given entry and touches no other; the slot heads the free list |
| Container.RunIsChained | include/beman/net/detail/container.hpp:36-56 | in every run the chain from `free` visits every unused slot once, no used one, and ends at the length of the table |
| Container.LengthIsPeak | include/beman/net/detail/container.hpp:36-50 | the table is exactly as long as the most entries that were ever live at the same time |
| Container.Container.InsertRecord | include/beman/net/detail/container.hpp:36-45 | updates the map at a fresh key; the returned identifier is that key reduced to 32 bits, and is the key and valid exactly if it is below 2^32 - 1 |
| Container.Container.EraseRecord | include/beman/net/detail/container.hpp:48-50 | removes exactly that key from the map |
| Container.Container.Get | include/beman/net/detail/container.hpp:53-56 | the record of a live identifier; the precondition is the assertion it makes |
| Uring.RingIsHandshake | include/beman/net/detail/uring_context.hpp:117-167 | every run of the ring is, for each operation, a run of the handshake with reports in any order; once no entry of it is left it has been sent what the last reporting party said |
| Uring.RingDeliversOnce | include/beman/net/detail/uring_context.hpp:87-148 | in every run `submitting` counts the queued entries and never exceeds the depth, `outstanding` the queued and submitted ones; an operation has one signal exactly if the ring holds no entry of it |
| Uring.OperationReportsLast | include/beman/net/detail/uring_context.hpp:150-167 | a concrete run: an operation stopped in flight whose cancel request reports first is sent the value for a result that is not negative, stopped for -125, and the error otherwise |
| Uring.CallbackReportsLast | include/beman/net/detail/uring_context.hpp:150-167 | the same run with the reports the other way round: it is sent stopped, for every result |
| Uring.CompletionSends | include/beman/net/detail/uring_context.hpp:184-305 | what any completion of an operation sends: nothing while its cancel request is held; otherwise stopped for -125, for a timer the value exactly for -62, for others the value exactly for results that are not negative, and the negated result as error |
| Uring.CancellationSends | include/beman/net/detail/uring_context.hpp:150-162 | a completion of a cancel request sends stopped exactly if the operation has reported, whatever its result |
| Uring.TasksAreConserved | include/beman/net/detail/uring_context.hpp:169-182 | in every run the scheduled tasks are, as a multiset, those that ran and those still queued |
| Uring.LastTaskFirst | include/beman/net/detail/uring_context.hpp:169-182 | the task scheduled last runs first and leaves the others as they were |
| Uring.Context.ScheduleTask | include/beman/net/detail/uring_context.hpp:169-172 | pushes the task and keeps the invariant |
| Uring.AssertionsHold | include/beman/net/detail/uring_context.hpp:83-131 | the assertions on both counters cannot fail |
| Uring.NothingOutstandingMeansDone | include/beman/net/detail/uring_context.hpp:135-138 | with nothing outstanding every operation ever started has been sent exactly one signal |
| Uring.ExecKeepsInv | include/beman/net/detail/uring_context.hpp:78-167 | after every run the entries of the ring are exactly those the handshakes of the operations expect |
| Uring.StepKeepsInv | include/beman/net/detail/uring_context.hpp:78-167 | every call, submission and completion keeps the invariant that ties the ring's entries to the operations' handshakes |
| Uring.RingRunsHandshakes | include/beman/net/detail/sender.hpp:74-133 | the events an operation sees in a run of the ring are a behaviour of the handshake |
| Uring.Context.SubmitQueue | include/beman/net/detail/uring_context.hpp:78-85 | a submission the kernel accepts moves the first entries to the kernel and lowers `submitting` by as many; one that fails changes nothing |
| Uring.Context.MakeRoom | include/beman/net/detail/uring_context.hpp:87-93 | the retry loop ends with room if and only if there was room or the first submission succeeds; it submits once in a full queue and not at all otherwise |
| Uring.Context.RunOne | include/beman/net/detail/uring_context.hpp:117-148 | returns 0 without a failure and without waiting exactly if there is no task and the ring is empty; it fails exactly if the submission or the wait does, and waits only when something is in flight |
| Uring.Context.ReapOne | include/beman/net/detail/uring_context.hpp:100-148 | a completion lowers `outstanding` and reports to the operation or its callback |
| Uring.Context.BeginOp | include/beman/net/detail/uring_context.hpp:87-98 | `start` with `get_sqe`, from any queue: if and only if there was room or the flush succeeds, the operation's entry is the last one queued, or the cancel entry on a stopped token; otherwise nothing changes |
| Uring.Context.Launch | include/beman/net/detail/uring_context.hpp:184-319 | with room in the queue, a submission queues its entry and carries out the model's step |
| Uring.Context.StopOp | include/beman/net/detail/uring_context.hpp:150-167 | a stop request, from any queue: if and only if no entry is needed, or there was room, or the flush succeeds, the ring then holds a cancel entry exactly if the operation was in flight; otherwise nothing changes |
| Uring.Context.Callback | include/beman/net/detail/sender.hpp:74-78 | with room in the queue, the stop callback queues the cancel entry if the operation is still counted, and carries out the model's step |
| Uring.StopQueues | include/beman/net/detail/sender.hpp:74-78 | a stop request leads to a cancel entry exactly while the operation is in flight with its callback registered |
| Buffered.SplitsExactlyWhen | examples/demo_stream.hpp:127-164 | for every stream and every chunking a read appends exactly what precedes the first sentinel and skips exactly the sentinel, or without one appends and keeps everything in order, if and only if the sentinel is a character or a literal of 1 to 1022 characters |
| Buffered.Reader.Read | examples/demo_stream.hpp:149-164 | result, appended bytes and remaining bytes are a function of the remaining bytes and the sentinel alone: independent of the chunks and of the state of the buffer; found means that the appended bytes, the sentinel and what remains are the stream; not found, that nothing remains for a character, and for a literal at most the size of its array |
| Buffered.Reader.ReadOn | examples/demo_stream.hpp:149-164 | the loop of `read` computes that function |
| Buffered.SplitsExactly | examples/demo_stream.hpp:127-164 | stream by stream: a read splits at the first sentinel if and only if the sentinel is one of these, or does not occur, or its first occurrence ends within the first 1024 bytes |
| Buffered.ManageableSplits | examples/demo_stream.hpp:127-164 | for such sentinels every read splits at the first one |
| Buffered.UnmanageableFails | examples/demo_stream.hpp:138-158 | for every other sentinel, a concrete stream on which it does not |
| Buffered.CharacterRead | examples/demo_stream.hpp:127-133 | a read up to a character finds it exactly if it is in the stream, appends what precedes it and skips it; otherwise it appends everything |
| Buffered.LiteralRead | examples/demo_stream.hpp:134-148 | a read up to a literal of 1 to 1022 characters finds its first occurrence exactly if there is one; otherwise it holds back as many bytes as the literal's array has, or all there are |
| Buffered.HeldBack | examples/demo_stream.hpp:138-148 | exactly how many bytes a read that finds nothing holds back, for every sentinel |
| Buffered.NothingIsLost | examples/demo_stream.hpp:149-164 | over any sequence of reads with any sentinels no byte is lost, duplicated or reordered |
| Buffered.Reader.Consume | examples/demo_stream.hpp:128-148 | appends up to the sentinel in the window, or without one all but the bytes held back, and keeps the rest |
| Buffered.Reader.Refill | examples/demo_stream.hpp:151-159 | compaction and `receive` change no remaining byte; the window handed to `receive` has at least min(512, 1024 - kept) bytes; nothing arrives only at the end of the stream or into a window of size zero, which needs a full buffer |
| Buffered.Reader.NextChunk | examples/demo_stream.hpp:150-160 | after a search in vain: a count of zero means that the read has its final result, any other that no sentinel was overlooked or cut and the unread bytes are fewer |
| Buffered.Reader.Compact | examples/demo_stream.hpp:151-154 | moves the unconsumed bytes to the front unchanged |
| Buffered.Reader.SkipBytes | examples/demo_stream.hpp:161-161 | skips within the window and never past its end |
| Buffered.SearchedInVain | examples/demo_stream.hpp:138-148 | after a search in vain no sentinel begins in what was appended, even if the next chunk completes one |
| Buffered.NothingMore | examples/demo_stream.hpp:155-158 | at the end of the stream what was appended and what is kept are the whole sentinel-free rest |
| WhenAny.FirstDecidesLastDelivers | examples/demo_algorithm.hpp:262-346 | for every number of children and every interleaving: nothing is delivered before all children have left, then exactly the signal of the child that completed first, with one stop request |
| WhenAny.NotifiesTheVerdict | examples/demo_algorithm.hpp:270-300 | at `notify_done` every other child has left, so nobody can still write, and what is found written is the first child's signal |
| WhenAny.LosersWriteNothing | examples/demo_algorithm.hpp:328-345 | only the child that took `done_count` from 0 writes a result or requests the stop |
| WhenAny.StepKeepsInv | examples/demo_algorithm.hpp:262-346 | every atomic step keeps both counters equal to the number of children past them and the result equal to what the winner has written |
| WhenAny.RunsAreShort | examples/demo_algorithm.hpp:262-346 | no run takes more than six steps for each child |
| WhenAny.NeverStuck | examples/demo_algorithm.hpp:262-346 | until every child has left some step is possible: so if every child completes, the receiver is notified |
| WhenAny.VerdictIsFirst | examples/demo_algorithm.hpp:262-268 | `done_count` counts the completions, and the verdict is the first of them |
| WhenAny.State.CountDone | examples/demo_algorithm.hpp:263-263 | the atomic increment decides the winner, and carries out the model's step |
| WhenAny.State.RequestStop | examples/demo_algorithm.hpp:264-264 | the winner requests the stop, and carries out the model's step |
| WhenAny.State.Store | examples/demo_algorithm.hpp:328-345 | the winner stores its result, and carries out the model's step |
| WhenAny.State.CountReady | examples/demo_algorithm.hpp:271-271 | the atomic increment finds the last child, and carries out the model's step |
| WhenAny.State.NotifyDone | examples/demo_algorithm.hpp:285-300 | delivers what is stored, and carries out the model's step |
| WhenAny.State.CompleteChild | examples/demo_algorithm.hpp:262-268 | `complete` without interruption takes the model's steps of that child, and returns true exactly for the first |
| WhenAny.State.Ready | examples/demo_algorithm.hpp:270-274 | `ready` without interruption takes the model's steps of that child to its end |
| WhenAny.State.Settle | examples/demo_algorithm.hpp:328-345 | a signal of a child without interruption takes the model's steps of that child, from its completion to its end |
| Limit.EveryArrivalOnce | examples/postgres.cpp:110-127 | in every run each arrival waits or was started, exactly once; at most one inner operation is started and has not ended, `in_use` exactly then, and waiters only then |
| Limit.AllRunOnce | examples/postgres.cpp:110-127 | once as many inner operations have ended as states arrived, each was run exactly once and the object is free |
| Limit.PendingBalance | examples/postgres.cpp:110-123 | every end lowers the number of pending operations by one and every arrival raises it |
| Limit.SomebodyRuns | examples/postgres.cpp:117-123 | while anything is pending an inner operation is running that can end |
| Limit.LastWaiterFirst | examples/postgres.cpp:110-123 | the waiter that came last is served first, and the others wait as before |
| Limit.StepKeepsInv | examples/postgres.cpp:110-127 | every arrival, end and delivery keeps the invariant |
| Limit.CascadeIsARun | examples/postgres.cpp:117-127 | inner operations that end inside their own start, nested to any depth, take the steps of a run; one end for each nested operation |
| Limit.Mutex.Start | examples/postgres.cpp:110-116 | an arrival waits if the object is in use and otherwise runs; all that happens inside the call is a run of the state machine, and everything that had to happen by itself has: operations that end inside their start have ended, the receivers of those that ended were called, what they start arrived, and nothing else did |
| Limit.Mutex.Run | examples/postgres.cpp:124-127 | the same from the start of the inner operation on; the nesting ends, bounded by the operations that wait and those receivers start; when receivers start nothing the end state is the cascade |
| Limit.Mutex.Signal | examples/postgres.cpp:79-97 | the operation has ended and its receiver was called, after `complete` with everything nested in it; all that the receiver starts has arrived; and the same as above for everything nested |
| Limit.Mutex.Complete | examples/postgres.cpp:117-123 | hands the object to the top waiter or frees it, with everything nested in that, and leaves only its own receiver to be called |
| Limit.Mutex.StartAll | examples/postgres.cpp:79-97 | everything a receiver starts inside its call arrives, and nothing else |
| RepeatEffect.RunsAreWhileLoops | include/beman/net/detail/repeat_effect_until.hpp:82-91 | the runs are exactly the executions of "upstream; while not predicate do body": one body per `false` of the predicate, the first error or stop ends it, exactly one signal, at the end, and it is the loop's result |
| AsyncRun.AsyncRunIsRun | include/beman/net/detail/io_context.hpp:134-161 | for every environment: with what others do between its hops done by the handlers instead, `run` makes the same dispatches and calls, counts the same and leaves the context in the same state; `async_run` completes with a value exactly if `run` returns, and otherwise ends exactly if the scheduler refuses a body and `run` would go on |
| AsyncRun.QuietAsyncRunIsRun | include/beman/net/detail/io_context.hpp:134-161 | when nobody else touches the context between the hops: same environment, same trace, count and context as `run`, completed exactly if `run` has returned |
| AsyncRun.AsyncRun | include/beman/net/detail/io_context.hpp:134-153 | `repeat_effect_until` with `run_one` as its body and `last_count` in its predicate drives the context as the model says, and promises of it what `run` promises, on any history |
| AsyncRun.TakeHop | include/beman/net/detail/io_context.hpp:142-147 | one body with its hop: the calls of others, the scheduler's answer, and `run_one` if it is admitted |
| AsyncRun.TakeBody | include/beman/net/detail/io_context.hpp:144-147 | `run_one`, and the predicate on its result, which ends the loop exactly if `run` would return |
| RepeatEffect.State.RunNext | include/beman/net/detail/repeat_effect_until.hpp:83-91 | with bodies that complete inside their own start, for any finite beginning of what they and the predicate answer, the nested calls take the events of the state machine one by one |
| RepeatEffect.NestedRounds | include/beman/net/detail/repeat_effect_until.hpp:83-91 | what nested rounds come to, in terms of the answers alone: after the rounds that complete inside their own start, the value if the predicate ends it, the error or stop if a body fails or is stopped inside its start, and no signal while a body runs on |
| RepeatEffect.State.ChildEnds | include/beman/net/detail/repeat_effect_until.hpp:148-168 | the inner receiver's three signals: the value goes on, an error or stop is forwarded and ends it |
| RepeatEffect.State.StartUpstream | include/beman/net/detail/repeat_effect_until.hpp:82-82 | `start`, with an upstream that completes at once or later |
| HeaderBundle.Build | bin/mk-compiler-explorer.py:64-84 | for every dependency map: fails exactly if the root or a reachable header is missing, otherwise runs forever exactly if a reachable header includes itself, otherwise writes exactly the reachable headers, each once and after all it includes |
| HeaderBundle.Collect | bin/mk-compiler-explorer.py:69-76 | the worklist ends on every map, cyclic ones included, with exactly the reachable headers, each with its original list |
| HeaderBundle.Emit | bin/mk-compiler-explorer.py:78-84 | gets stuck exactly if the map has a cycle; what is written is in topological order, and is everything otherwise |
| HeaderBundle.Round | bin/mk-compiler-explorer.py:79-84 | one round writes exactly the dependency-free headers, in the dictionary's order, and leaves exactly the others, without the written ones in their lists |
| HeaderBundle.StuckMeansCycle | bin/mk-compiler-explorer.py:78-79 | a finite map in which every header left waits for another one has a cycle; so an acyclic one always has a header to write |
| HeaderBundle.OrderedMeansAcyclic | bin/mk-compiler-explorer.py:78-84 | a map that has a topological order of all its headers has no cycle |
| HeaderBundle.AllCollected | bin/mk-compiler-explorer.py:70-76 | an empty worklist means that exactly the reachable headers were collected |
| HeaderBundle.CyclesAgree | bin/mk-compiler-explorer.py:69-78 | the collected map has a cycle exactly if one is reachable in the whole map |

## Left out

- Object lifetime: what a receiver may destroy when it is signalled, and whether the kernel still
  refers to a callback or a stack object. Delivery is an event of the model, not a use of memory.
- Stop requests that race from another thread with `start` or `complete`: `poll_context` has no
  locking and its `wakeup` is empty.
- PollContext.Context: the pending timers and the task stack are fields holding sequences, not linked
  nodes. For the timers `Timers.Replay` shows that the linked list holds the same in every run; the
  linked stack of tasks is not modelled.
- PollContext.Context.BeginOperation: a failing `fcntl` in `connect` is not told apart from a failing
  `connect`; both are the immediate refusal with an error code.
- PollLoop.StepDelivers: the data a completion carries (byte counts, the accepted socket's address)
  is not modelled; that an accepted handle is entered in the socket table is.
- PollLoop.DispatchedWasReady: `POLLHUP` alone does not make an entry ready, as in the source; that
  such an entry can make the wait loop spin is not stated.
- IoContext.Run: that `run` ends is not claimed, since it depends on the environment.
- Fairness: the scan is backward, timers precede tasks, tasks and waiters are stacks.
- Uring.Context.RunOne: a failing submission or wait throws in the source, from a `noexcept`
  function; here it is the result `failed`, and what `std::terminate` then does is not modelled.
- Uring.Context.BeginOp: `resume_at` submits at once; here that is the `Submit` step that may follow
  any other step. `poll` is not implemented by this back end.
- `iocp_context` beyond the orders in which it reports a cancellation, which are two of the four
  orders of `Handshake`.
- WhenAny.FirstDecidesLastDelivers: with no child at all nothing is ever delivered, as in the source;
  the values are integers, and an exception while a result is stored is not modelled.
- AsyncRun.AsyncRunIsRun: the scheduler a body hops to is not the context's own; on its own each hop
  would be a task of the context, for another `run_one` around this one to run. The adaptor that
  swallows an error at the end is not modelled.
- RepeatEffect.State.RunNext: a chain of synchronous completions that never ends is unbounded
  recursion in the source; here every finite beginning of it is covered.
- Limit.Mutex.Start: which inner operations end inside their start, and what each receiver starts, is
  fixed per operation; an operation is started once.
- HeaderBundle.Build: scanning files for includes, writing their text and the list of system headers.
- The task type, the completion-signature metaprogramming, endpoints and address classes, the demo
  stream's memory context, TAPS properties, and the HTTP and Postgres code of the examples.
