# A model of flashaccept

flashaccept accepts TCP connections on io_uring: a worker keeps one accept request
standing, receives one request per connection, asks a handler for a reply, queues the
reply and the close back to back, and recycles the connection record while both are
still queued. Nothing tells the worker when a send or close succeeded. Whether that is
right depends on an ownership and ordering argument over whole runs, and this project
makes it. It also covers the three research programs around the engine: the load
generator that referees the benchmark, the treatment server the engine descends from,
and the loop that promotes or reverts optimizations.

Check it with `dafny verify dfyconfig.toml`.

## How it is organised

| file | content |
|---|---|
| `Basics`, `Ring`, `Engine`, `System` | shared definitions; queue entries; the worker as a function; worker and kernel as a transition system with runs |
| `Tokens`, `Safety`, `DrainSafety` | the token accounting, the invariant, and its preservation by every step |
| `Runs`, `Descriptors`, `Lifecycle`, `Replies`, `Batches`, `Overwrite`, `Fallbacks` | the results about every state of every run, and about the branches a full queue leads to |
| `Schedule`, `Progress` | the event loop under a script as a function, and what it gets done: which completions a pass drains, and that what is queued happens |
| `WorkerClass`, `WorkerLoop`, `Server` | the imperative worker (linked freelist, scratch array, event loop, teardown) and the server with its sockets, threads and workers, proved equal to the functions above |
| `Treatment`, `TreatClass`, `Simulation`, `TwinRuns`, `TwinSchedule`, `TwinLoop` | the treatment server as a function and as an imperative worker, the engine's simulation of it, and both workers side by side |
| `Percentiles`, `LoadGen`, `LoadWorker`, `LoadCourse`, `LoadLoop`, `LoadMain` | the load generator, from one connection's state machine through a thread's course to the printed figures |
| `Optimizer` | the promote-or-revert loop |

The safety argument is one conservation law. There is one accept token, one token per
allocated record, and one token per open descriptor, stamped with its connection and
with how far that connection got. Queue entries, requests in flight, the freelist and
leaked slots hold tokens. In every reachable state each token is held exactly as often
as the record map and the descriptor table say it must exist. Ownership of records,
identity and conservation of descriptors, the single accept request and the order of
events on a connection all follow from it.

Safety says where the worker can be; `Schedule` says where it is. A script gives, pass by
pass, the kernel's moves, what the enter call returns and how the handler and malloc
answer, and the loop is a function of it. The imperative worker is proved equal to that
function, and `Progress` proves of the function that the loop drains what it finds and
that every request it queues is carried out.

## Assumptions about the outside

The kernel takes nondeterministic steps; these are its only constraints.

- It consumes submission entries in order, only inside an enter or submit call, and resolves a descriptor at issue.
- A non-negative return of submit_and_wait_timeout means that every queued entry was consumed.
- An issued recv posts exactly one completion, after writing at most the requested length to the record's buffer.
- Accept returns a descriptor that is not open. A close releases its descriptor.
- A standing accept ends exactly when it posts a completion without F_MORE.
- A send or close posts a completion only on failure, with null user data. A send takes all its bytes from the scratch when it is issued.
- malloc gives out memory that is not in use, or fails. The handler stays within the scratch and may otherwise write and return anything.
- A run may begin with anything in the scratch: it is zeroed once, when the server is made, and a later run finds what the last one left. The stop flag is never cleared, so a later run does work only if the one before ended without a stop. `Overwrite.ServesNewExactly` is about runs that begin with zeros.

`Overwrite.ServesExactlyCompatible` speaks of handlers whose writes and result depend on the
request alone. They may write anywhere in the scratch, write more or less than they send,
decline and still write, return more than the capacity, and choose among several answers. A
handler whose writes depend on what it finds in the scratch, or that remembers earlier calls,
is covered only by what is said of every handler (`Batches.ReplyBytes`,
`Batches.LastCallServed`), or as a choice among all answers it may ever give.

Identities of connections in queue entries and records are bookkeeping of the model. No
branch of the worker reads them.

## Where the code does less than its documentation says

- The comment at `src/flashaccept.c:282-285` calls the reply scratch stable until its entries are submitted. One batch may call the handler many times into the same scratch before anything is submitted. `Overwrite.DisagreementHarms` constructs a run in which a connection is sent another's bytes, `Overwrite.ServesExactlyCompatible` gives the exact condition on the handler, and `Batches.ReplyBytes` says for every handler and every send what is sent.
- `include/flashaccept.h:96-97` promises a fallback from multishot to single-shot accept. `fa_arm_accept` always follows the configuration, and so does the model.
- When no thread starts, `src/flashaccept.c:589-590` returns with the listening sockets open; `Server.FaServer.Run` states it.
- Teardown (`src/flashaccept.c:606-613`) frees the freelist only. `WorkerLoop.Lifetime` and `Server.FaServer.Run` state which records are left.
- `research/loadgen/loadgen.c:197` speaks of keeping exactly the target in flight. The code keeps at most the target: a failed start ends the refill.

## Model

| member | source | states |
|---|---|---|
| `Runs.RunInv` | src/flashaccept.c:332-410 | the invariant holds in every state of every run: tokens balance, queue entries and completions agree with the records they name, every queued send has its close right behind it |
| `Safety.StepIssue` | src/flashaccept.c:354-361 | issuing the first queued request keeps the invariant, whichever request it is |
| `DrainSafety.StepDrain` | src/flashaccept.c:363-408 | draining one completion keeps the invariant, for every handler result and malloc outcome |
| `Runs.OwnershipPartition` | src/flashaccept.c:144-158 | every allocated record is in exactly one place (freelist, queued recv, recv in flight, undrained completion) and no place holds anything else |
| `Runs.RecycledUnnamed` | src/flashaccept.c:363-408 | a record freed, or reused within the same batch, is named by no completion still to be drained |
| `Runs.DispatchCorrect` | src/flashaccept.c:365-406 | while the batch has completions left there is one to take, its user data can be dereferenced, the state test never misclassifies it, and its record is not on the freelist |
| `Runs.NeverStarved` | src/flashaccept.c:84-86 | at most 512 of 4096 entries are ever queued, and no run ever takes a no-entry fallback |
| `Runs.AcceptTokenUnique` | src/flashaccept.c:202-227 | there is always exactly one accept request (queued, standing, or ended and undrained), multishot or not |
| `Descriptors.RequestsResolve` | src/flashaccept.c:287-326 | every queued recv, send and close and every recv in flight names a descriptor open for the connection it is meant for |
| `Descriptors.DescriptorIdentity` | src/flashaccept.c:287-326 | everything the kernel ever resolved, in the whole history, was the connection the request was queued for |
| `Descriptors.ReleasedOnlyByClose` | src/flashaccept.c:255-275 | a step leaves a descriptor with its connection or closes exactly that connection; it is never reassigned before |
| `Descriptors.DescriptorConservation` | src/flashaccept.c:374-405 | an open descriptor is in exactly one place, what is in a place is open, and a connection without a descriptor went through its close |
| `Descriptors.LeakOnlyOnOom` | src/flashaccept.c:383-388 | no slot is ever leaked with regular descriptors, nor with direct ones as long as malloc succeeds |
| `Lifecycle.LifecycleRefinement` | src/flashaccept.c:48-52 | projected onto any connection, every run is a prefix of accept, recv, then close, or handler, optional send and close |
| `Lifecycle.ProtocolMeaning` | src/flashaccept.c:374-406 | the handler runs at most once and on at least one byte, one send at most, within the capacity and before the close, nothing after the close |
| `Lifecycle.ServedBeforeClosed` | src/flashaccept.c:383-405 | barring malloc failure a closed connection went through its recv |
| `Replies.HandledOnce` | include/flashaccept.h:103-118 | two handler calls for the same connection are the same call |
| `Lifecycle.AllocationBound` | src/flashaccept.c:337-342 | records ever allocated = max(warm-up allocations, peak number simultaneously in use) |
| `Lifecycle.StepRecs` | src/flashaccept.c:144-152 | a step allocates at most one record, only when the freelist is empty, and then all records are in use |
| `Lifecycle.TeardownLeaves` | src/flashaccept.c:606-613 | the records not on the freelist are exactly those owned by one recv, and the freelist has no repeats |
| `Batches.ReplyBytes` | src/flashaccept.c:354-401 | for every handler: every send belongs to an earlier call for the same connection; no other batch starts between the two; what is sent has length min(rlen, cap) and is the scratch at the end of that batch, which the last handler call of the batch left; so it is the connection's own reply exactly when that last call left its bytes |
| `Batches.LastCallServed` | src/flashaccept.c:365-401 | for every handler: a connection whose call is the last of its batch is sent its own reply |
| `Replies.BatchStartsClean` | src/flashaccept.c:354-365 | when a batch starts no connection owes a reply |
| `Batches.NoFlushBetween` | src/flashaccept.c:354-408 | between a connection's handler call and its send no batch starts, so only calls of the same batch can overwrite its reply |
| `Replies.CompatibleSafe` | src/flashaccept.c:278-286 | if no answer of the handler writes something else into the reply of another, every connection is sent what its own call left, in every run |
| `Overwrite.DisagreementHarms` | src/flashaccept.c:365-401 | for any two answers of which one writes something else into the reply of the other there is a run in which the first connection is sent bytes that are not its reply; the run starts from zeros if the first answer writes all it sends |
| `Overwrite.ServesExactlyCompatible` | src/flashaccept.c:278-286 | for every handler that answers from the request: the engine serves it correctly in every run if and only if no answer writes something else into the reply of another |
| `Overwrite.ServesNewExactly` | src/flashaccept.c:535 | the exact condition for a newly made server, whose scratch is zeros: an answer may also write zeros where another sends bytes it does not write |
| `Overwrite.ContractHandlersServed` | include/flashaccept.h:112-114 | for handlers that write all they send a newly made server serves correctly exactly when no answer writes something else into the reply of another |
| `Overwrite.CopyingHandlersServed` | include/flashaccept.h:103-118 | for handlers that copy a reply and write nothing else the condition is that no two replies disagree at a position both have |
| `Overwrite.AgreeingIsNotEnough` | include/flashaccept.h:103-118 | a handler that writes a terminating zero behind its reply is not served correctly, though its replies agree |
| `Overwrite.ConstantHandlerServed` | examples/echo_server.c:25-34 | a handler with a constant reply is served correctly |
| `Fallbacks.GetSqeMeans` | src/flashaccept.c:204-210 | asking for an entry: at once when fewer than 4096 are queued; else a submit keeps all requests in order, and there is an entry exactly when the kernel takes one |
| `Fallbacks.CloseReleases` | src/flashaccept.c:255-275 | queue full or not, closing gives up the descriptor exactly once and no other, and the record becomes the head of the freelist |
| `Fallbacks.ReplyReleases` | src/flashaccept.c:287-326 | the same for replying and closing, whichever of the two entries is not to be had |
| `Fallbacks.RecvQueuesOrReleases` | src/flashaccept.c:230-249 | a recv is queued behind everything else, or the connection is given up: descriptor once, record back on the freelist |
| `Schedule.StartedMeans` | src/flashaccept.c:337-344 | of the first 128 allocations exactly those that succeed are on the freelist, each once, and one accept request is queued |
| `Schedule.RunReach` | src/flashaccept.c:354-361 | for every script the loop stays within the runs of worker and kernel; it goes through all passes and is left exactly when one brings a stop or a fatal return |
| `Progress.PassDrains` | src/flashaccept.c:354-409 | a pass whose enter call succeeds drains exactly the first min(ready, 256) completions, the i-th with the i-th answers, and leaves the others and what the kernel posted meanwhile |
| `Progress.QueuedHappens` | src/flashaccept.c:354-361 | in every run a queued request stays queued until it is carried out for its connection; none is lost |
| `Progress.AcceptIsReceivedFrom` | src/flashaccept.c:374-390 | a drained accept with a record to be had is received from by the next time the queue is flushed, any number of passes later |
| `Progress.RecvIsDealtWith` | src/flashaccept.c:391-405 | end to end: a recv completion among the first 256 of a pass has the handler called in that pass on the bytes received, and by the next flush, any number of passes later, a positive answer is sent with length min(rlen, cap) and the connection is closed |
| `Progress.WholeLife` | src/flashaccept.c:48-52 | a closed connection has lived a whole life (accept, recv, close, with the handler between if it received), and all six events if it was sent an answer |
| `WorkerClass.FaWorker.ConnAlloc` | src/flashaccept.c:144-152 | pops the linked freelist or takes the malloc answer; the list stays acyclic and the returned record is off it |
| `WorkerClass.FaWorker.ConnFree` | src/flashaccept.c:154-158 | pushes the record on the linked list and changes no record content |
| `WorkerClass.FaWorker.GetSqe` | src/flashaccept.c:204-210 | asks for an entry and, when the queue is full, submits and asks again, whatever part the kernel takes |
| `WorkerClass.FaWorker.ArmAccept` | src/flashaccept.c:202-227 | the new worker state is the specified one, including the branch without an entry |
| `WorkerClass.FaWorker.SubmitRecv` | src/flashaccept.c:230-249 | the same for queueing a recv or dropping the connection |
| `WorkerClass.FaWorker.SubmitClose` | src/flashaccept.c:255-275 | the same for queueing a close or closing at once |
| `WorkerClass.FaWorker.SubmitReplyAndClose` | src/flashaccept.c:287-326 | the same for queueing a send and its close, both fallbacks included |
| `WorkerClass.FaWorker.OnAccept` | src/flashaccept.c:374-390 | re-arms without F_MORE, skips errors, else finds a record and queues its recv |
| `WorkerClass.FaWorker.OnRecv` | src/flashaccept.c:391-405 | closes on EOF, error or a declining handler, else clamps the length and queues reply and close |
| `WorkerClass.FaWorker.DrainOne` | src/flashaccept.c:366-406 | one loop body, dispatched on the state read through user data, equals the specified step |
| `WorkerLoop.DrainBatch` | src/flashaccept.c:363-408 | the drain loop over a batch ends where BatchTo leads, with the kernel moving in between |
| `WorkerLoop.Pass` | src/flashaccept.c:354-409 | one loop pass (stop flag, enter, retry, fatal error, drain) ends where PassTo leads, and says whether the loop goes on |
| `WorkerLoop.Prewarm` | src/flashaccept.c:337-342 | the worker after the warm-up is Warmed, which StartedMeans describes |
| `WorkerLoop.Run` | src/flashaccept.c:332-410 | for every script the imperative worker ends exactly where RunTo leads from its warmed-up start, that is in a state of some run, so all results about runs and progress hold of it; no fallback was taken |
| `WorkerLoop.DrainFreelist` | src/flashaccept.c:606-613 | the walk terminates and frees every listed record exactly once, in list order |
| `WorkerLoop.Teardown` | src/flashaccept.c:606-613 | of a worker that left its loop where its task leads: no record is freed twice, only its records are freed, one is left exactly when one recv owned it in that state, and nothing else of the worker changes |
| `WorkerLoop.Lifetime` | src/flashaccept.c:332-410 | the same from construction through any script to teardown |
| `Server.FaServer.OpenSockets` | src/flashaccept.c:561-575 | all sockets are recorded, or exactly those made so far are closed and forgotten |
| `Server.FaServer.Run` | src/flashaccept.c:554-617 | with a thread started every socket is closed exactly once and forgotten; every worker whose thread got its ring went through its whole script and is torn down, with exactly the records left that a recv owned as its loop was left; any other had nothing to free; with no thread started the sockets stay open; the stop flag and return code in each case |
| `Server.NewServer` | src/flashaccept.c:532-548 | workers that share nothing, each without records, sockets or requests |
| `TreatClass.TreatWorker.Drain` | research/treatment/accept-treat.c:279-319 | one drain loop body, dispatched on the state read through user data and working on the linked freelist, equals the specified step and keeps the list acyclic |
| `TreatClass.TreatWorker.ConnAlloc` | research/treatment/accept-treat.c:75-83 | pops the linked freelist or takes the malloc answer; the returned record is off the list |
| `Simulation.SimStep` | research/treatment/accept-treat.c:279-319 | related workers stay related over any completion, also when the queue runs full |
| `Simulation.EngineSimulation` | research/treatment/accept-treat.c:252-326 | from blank workers, over any inputs and in either descriptor mode: same queue, same freelist, same system calls, same reply bytes |
| `TwinRuns.TwinRun` | src/flashaccept.c:332-410 | in every run of the engine with a fixed 19-byte reply the treatment server stays in step state by state, with no condition on the completions |
| `TwinSchedule.RunTogether` | research/treatment/accept-treat.c:252-326 | for every script both go through the whole of it in step, the engine as it would alone |
| `TwinLoop.TwinWorkers` | research/treatment/accept-treat.c:252-326 | the two imperative workers, warmed up and looping over the same script, end where PairRun leads: the engine where it would end alone, the treatment server in step with the same system calls, same queue and same freelist |
| `Percentiles.HistogramTotal` | research/loadgen/loadgen.c:103 | the histogram holds as many latencies as were recorded |
| `Percentiles.BucketMeans` | research/loadgen/loadgen.c:103 | bucket b below 1024 holds exactly the latencies from 50*b to 50*b+49 microseconds (0 also what is negative), bucket 1024 all from 51200 on |
| `Percentiles.PercentileIsOrderStatistic` | research/loadgen/loadgen.c:268-274 | the first bucket to reach a share is the bucket of the order statistic of that rank, and is not empty |
| `Percentiles.Report` | research/loadgen/loadgen.c:268-274 | the scan with its three flags and its break finds those buckets and the highest non-empty one, in order |
| `LoadMain.ReportIsOrderStatistics` | research/loadgen/loadgen.c:259-274 | over any number of threads: p50, p99, p99.9 and max are the buckets of those positions in any sorted arrangement of all latencies, p50 <= p99 <= p99.9 <= max, and each printed value v is that of a latency x with v <= x < v+50 below 51.2 ms |
| `LoadGen.ReadsStream` | research/loadgen/loadgen.c:163-170 | however the bytes are cut into reads, what is kept is the stream up to 19 bytes, and the reply is whole exactly when the stream suffices |
| `LoadGen.WritesStream` | research/loadgen/loadgen.c:153-156 | however the request is cut into writes, what counts as sent is what the socket took, up to 18 bytes, and it is out exactly when the socket takes all of it |
| `LoadGen.WriteEnds` | research/loadgen/loadgen.c:155-158 | a request that is not out waits exactly when the socket would block, else it failed, with a reset if that is reported |
| `LoadGen.ReadEnds` | research/loadgen/loadgen.c:165-169 | the same for the reply, with the end of the stream as its own reason |
| `LoadGen.EventMoves` | research/loadgen/loadgen.c:141-179 | an event moves a connection exactly as far as the socket lets it, and completes it exactly when the reply is whole and passes the check |
| `LoadGen.ReasonMeans` | research/loadgen/loadgen.c:141-169 | for each reason in the report, exactly which events end a connection with it |
| `LoadGen.AcceptedMeans` | research/loadgen/loadgen.c:171-175 | what the two checks accept, and that the sampled one is the stricter |
| `LoadGen.HandleOk` | research/loadgen/loadgen.c:141-179 | an event that does not end a connection leaves it well-formed and short of a whole reply; an ended connection completed exactly when it read a whole reply that passed the check, and failed for wrong bytes exactly when it read a whole one that did not |
| `LoadWorker.Conn.Advance` | research/loadgen/loadgen.c:141-170 | the state machine with its write and read loops equals the specified event |
| `LoadWorker.Worker.ConnStart` | research/loadgen/loadgen.c:117-138 | a failed start is counted by reason and uses up no sampling position; a start registers one new connection, unsent and unread, sampled by its position among the offered |
| `LoadWorker.Worker.HistAdd` | research/loadgen/loadgen.c:103 | exactly the bucket of the latency grows by one, and fifty times its number is the latency to fifty microseconds below 51.2 ms |
| `LoadWorker.Worker.Handle` | research/loadgen/loadgen.c:141-179 | returns 1 exactly when the connection was resolved; then it is out of the set, closed, and booked once |
| `LoadWorker.ResolveOk` | research/loadgen/loadgen.c:105-114 | booking an outcome keeps all books: completions and histogram, samples, and failures reason by reason |
| `LoadWorker.Conservation` | research/loadgen/loadgen.c:192-213 | completed + failed + in flight = offered + failed starts + time-outs |
| `LoadLoop.Pace` | research/loadgen/loadgen.c:202-206 | the pacing loop terminates where PaceTo leads, start by start |
| `LoadLoop.Refill` | research/loadgen/loadgen.c:199 | the refill ends where RefillTo leads |
| `LoadCourse.PaceShape` | research/loadgen/loadgen.c:202-206 | no start unless one is due, at most two in a pass; no start leaves the schedule, one moves it by an interval or to now, two to one interval from now; and the loop stops only when time is up, nothing more is due, or the cap is reached |
| `LoadCourse.RefillShape` | research/loadgen/loadgen.c:199 | the refill never exceeds the target, and falls short exactly when time is up or at its one failed start, the last it tries |
| `LoadCourse.ThreadCapped` | research/loadgen/loadgen.c:190-206 | after every start and every event no more are in flight than the target, or 60000 open-loop |
| `LoadCourse.ThreadPaced` | research/loadgen/loadgen.c:186-206 | open-loop a thread makes fewer than rate * duration + 1 start attempts |
| `LoadCourse.ThreadKeptUp` | research/loadgen/loadgen.c:186-206 | and more than rate * x by the time it has come round x seconds behind its start, if it stays below the cap and comes round at least once an interval |
| `LoadCourse.UnratedStartsOnce` | research/loadgen/loadgen.c:187 | without a rate a thread attempts at most one start in a billion seconds |
| `LoadCourse.ThreadGoesOn` | research/loadgen/loadgen.c:192-212 | a thread goes on until time is up with nothing in flight, or has been up for five seconds; then and only then what is in flight is timed out; every pass before makes its starts and handles all its events |
| `LoadCourse.PassCompletes` | research/loadgen/loadgen.c:207-211 | end to end: a connection that an event of a pass lets finish is completed by the end of that pass |
| `LoadCourse.ThreadAccounted` | research/loadgen/loadgen.c:181-216 | at the loop head and after either exit every start attempt is completed, failed or in flight, and nothing is in flight after an exit |
| `LoadLoop.WorkerMain` | research/loadgen/loadgen.c:181-216 | for every clock and network the imperative thread ends exactly where ThreadTo leads, out of its loop exactly when that says so; so its books balance, it keeps within its cap, and open-loop it keeps to its rate and up with it |
| `LoadGen.SamplingRate` | research/loadgen/loadgen.c:129 | of the first n positions exactly (n/100)*p + min(n%100, p) are sampled, never fewer than p percent |
| `LoadWorker.SampledShare` | research/loadgen/loadgen.c:129-136 | so many of the connections a thread offered are in its sample |
| `LoadMain.SharesExact` | research/loadgen/loadgen.c:230-246 | every thread's share is at least one, the shares sum to the target, differ by at most one, and the larger come first |
| `LoadMain.ConcurrencyBound` | research/loadgen/loadgen.c:190-199 | for any interleaving of threads whose traces stay within their shares no more than the target is in flight in total |
| `LoadMain.RunThreads` | research/loadgen/loadgen.c:244-250 | every thread does its job, with its share of the rate or the target; whatever the clocks and the network do, the total in flight stays within the target under every interleaving |
| `LoadMain.TotalPaced` | research/loadgen/loadgen.c:245 | open-loop the n threads together attempt fewer than rate * duration + n starts |
| `LoadMain.TotalKeptUp` | research/loadgen/loadgen.c:245 | and more than rate * x if all are on time for x seconds |
| `LoadMain.Threads` | research/loadgen/loadgen.c:230-231 | as many threads as asked for, unless that is fewer than one or more than there are connections to share |
| `LoadMain.Aggregate` | research/loadgen/loadgen.c:259-266 | the sums, also reason by reason, are those of the threads' books and the histogram is that of all their latencies |
| `LoadMain.Summary` | research/loadgen/loadgen.c:258-277 | the figures of all threads and their percentiles, zeros when nothing completed; reply_ok exactly when no sampled whole reply differed from the expected one |
| `LoadMain.Generate` | research/loadgen/loadgen.c:218-277 | from options to figures: the figures are those of the threads that did their jobs, every start any thread tried is completed, failed or left in flight, the total in flight stays within the target, and open-loop the attempts are below rate * duration + n and above rate * x when all are on time for x seconds |
| `Optimizer.Loop.Measure` | research/harness/loop.sh:64-85 | a better score makes the commit the champion at HEAD; otherwise HEAD, champion and score are what they were |
| `Optimizer.Loop.Iterate` | research/harness/loop.sh:29-126 | an iteration is measured exactly when it was not stopped, the model succeeded and left a change; promoted exactly when its score beats the threshold; the loop is done exactly on a stop, on drift at a due watchdog, or with the patience used up |
| `Optimizer.MeasuredCount` | research/harness/loop.sh:48-66 | over a course of iterations the measurements are the measurable iterations, each once |
| `Optimizer.Loop.Run` | research/harness/loop.sh:28-127 | the loop takes iterations one after the other until it is done, the script ends or the maximum is reached; after k promotions from a positive score s the champion exceeds s*(1+EPSILON)^k, HEAD is the champion, measurements are at most (promotions+1)*PATIENCE, and if no score exceeds M then promotions and measurements are bounded by M, however long the loop runs |
| `Optimizer.Loop.AtEnd` | research/harness/loop.sh:121-126 | the loop's invariant at the end bounds measurements by promotions, and both by the highest score |

## Left out

- Socket creation, setsockopt, bind, listen, CPU pinning, rlimits and ring setup: foreign calls without logic.
- The size of the direct descriptor table: accept may fail at any time, which covers a full table.
- MSG_MORE, FIN fusion, short sends and reordering inside the kernel: assumptions, see above; a `Sent` event records the bytes handed to the kernel.
- Integer widths: counters and lengths are unbounded integers.
- Rounding of doubles in the pacing and the percentile comparisons, and of `%.6f` in the threshold: reals and exact rationals are used.
- WorkerClass.Conn.constructor: the record's buffer is a byte sequence that is reassigned, not an array.
- WorkerClass.FaWorker.SubmitReplyAndClose: the second half of the source function, which repeats fa_submit_close, is a call of SubmitClose.
- TwinLoop.TwinWorkers: both loops follow one script; the engine's stop flag and time-outs, which the treatment server does not have, end or skip a pass for both.
- Simulation.EngineSimulation: inputs must name allocated records that are in use; TwinRuns.TwinRun discharges this for runs.
- Server.NewServer: argument checks, defaults, the choice of CPUs and failing allocations are omitted.
- Server.FaServer.Run: threads share nothing and are run one after the other; the ring itself and its teardown are omitted; a second run of the same server is not composed with the first.
- Overwrite.ServesExactlyCompatible: handlers whose writes depend on the content of the scratch or on earlier calls, see above.
- LoadWorker.Worker.Handle: freeing the record is modelled as leaving the set of registered connections; epoll interest changes are omitted.
- LoadLoop.WorkerMain: a script of passes replaces the clock and the network, and a finite script that ends first leaves the loop at its head.
- WorkerLoop.Run: a script replaces the kernel and the handler; kernel moves that are impossible at that point are passed over, a block malloc cannot have given counts as a failed allocation, and a script that ends leaves the loop at its head.
- Progress.RecvIsDealtWith: that a flush ever comes is up to the kernel and the stop flag; the statement is about when it does.
- LoadCourse.ThreadKeptUp: that the thread comes round once an interval is up to the clock; the statement is about when it does.
- Optimizer.Loop.Run: the commit is taken to succeed and nothing else to commit; EPSILON is not negative; session, cost and database bookkeeping and worktree cleanup are omitted.
- The generator's source address pool, rates per second, drop rate and CPU figures: printing only.
- The control server (one goroutine per connection), the benchmark runner and its perf and database scripts, the web interface, and packaging.
