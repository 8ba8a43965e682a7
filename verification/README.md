# A verified model of the nginx RPC module

The repository lets nginx HTTP workers hand protobuf requests to separate RPC processes through
shared memory: an HTTP worker takes an idle RPC process from a shared ring, links a task into that
process's mailbox and writes its eventfd; the RPC process drains its mailbox, runs the service and
parks itself again; the answer comes back through the mailbox of the HTTP worker.  A service may
forward the same task back to its HTTP worker as a sub-request before it answers.  This project
models that protocol with the linked rings under it, the buffer chains that carry the bytes, the
codec of the two messages, and the text the code generator emits, and proves what they are for.

| file | what it holds |
|---|---|
| `Links.dfy`, `Notify.dfy` | intrusive rings as pointer writes on a memory; the mailbox, the eventfd, the idle ring and the read handler as heap objects proved against them |
| `Protocol.dfy`, `ProtocolInv.dfy`, `ProtocolSteps.dfy`, `ProtocolTheorems.dfy` | the protocol as a transition system over any number of processes, tasks, channels and requests, its invariant, one proof per step, and the theorems over whole runs |
| `EventLoops.dfy` | what one process does in its own order: the turns of its event loop, its pushes and deletions, its eventfd |
| `LivesHappen.dfy`, `GuardedLives.dfy` | runs for every legal life of a task, for a refusal, and a run of the guarded protocol |
| `Progress.dfy` | the module's own steps end, and where they end all mail is delivered |
| `Payload.dfy`, `Forwarding.dfy` | the bytes that travel with a task through a run: whose bytes each response, service, sub-request and continuation gets, and what reading leaves of them |
| `IdleTokens.dfy` | the guarded protocol: one token per RPC process |
| `LinkMemory.dfy`, `IdleRuns.dfy` | the link memory of a whole run: it holds the mailboxes, what the idle ring does under any parks and takes, and at which step of a run it breaks |
| `Chains.dfy`, `TaskBufs.dfy`, `Readers.dfy` | buffer chains in the heap, the copy-and-free of a task's buffers, and their reader |
| `Growth.dfy`, `Writers.dfy` | the growing writers on values, and as objects |
| `Wire.dfy`, `Codec.dfy`, `Streams.dfy`, `Message.dfy` | the Protocol Buffers wire format (Encoding: "Base 128 Varints", "Message Structure", "Last One Wins"), parsing and serializing on values, the streams, and the message objects with their strings |
| `Replacing.dfy`, `Routes.dfy`, `Namespaces.dfy` | the generator's string replacement, its route names and its namespace lines |
| `Options.dfy`, `Eventfd.dfy`, `CStrings.dfy` | shared small definitions |
| `HeaderList.dfy`, `ForwardPath.dfy` | the Content-Length search through list parts, and the path of a sub-request |

Each locked region is one step of the protocol, and so is each eventfd read or write; any other
process may move in between.  A step that the program could only take through a bad pointer (a
deleted channel, another process's private object, an unset handler, a node that is already
linked) sets a fault flag, and no run ever reaches a state where it is set.

## Where the code departs from what it is meant to do

- The read handler looks at the result of its read only after it has run the handler
  (`EventLoops.LoopHistory`), so one signal makes an RPC process drain and park twice
  (`Notify.ReadHandler`), and a second park turns
  the idle ring into a cycle that never comes back to its head (`Links.ParkKeepsRingIff`,
  `Links.ParkTwice`).  From then on the memory is never the ring of its head again, a take never finds it empty, and a
  request is never refused (`LinkMemory.IdleRingIff`, `LinkMemory.NoRingForGood`,
  `LinkMemory.IdleTakes`).  `IdleRuns.RingUntilParkedAgain` says at which step of a run this happens,
  and one request, or one wake-up without a signal, is enough for it (`IdleRuns.OneRequestBreaks`,
  `IdleRuns.SpuriousWakeBreaks`).  The protocol theorems hold for the shipped
  behaviour, with the idle ring yielding any RPC process or none; the properties of the idle ring
  itself are proved for the guarded protocol, in which the handler runs only after a successful
  read and no service forwards.
- `ngx_http_rpc_task_set_bufs` reads `next` of a node it has freed; the model saves it first.  It
  frees the block at `pos`, which for a request that was parsed is no longer the start of its data
  (`Readers.ReadAndGiveBack`).  The data is then left behind, and if it fills its block the block
  directly behind it, whosever it is, is freed in its stead (`TaskBufs.OneBufferFreed`,
  `TaskBufs.ReplaceRead`; `TaskBufs.StaysLiveIff` for any chain).
- The reader of `req_bufs` never leaves the first node.  On a chain of several buffers it gives out
  the first two and then never returns (`Readers.ReadOut`, `Readers.Reader.SpinsForever`).
- A writer's `Next` after a partial `BackUp` moves `pos` over bytes it holds.
  `Growth.FaithfulIff` says exactly when that loses something, and `Growth.SkippingCalls` is an
  instance.
- The shared-memory writer takes bytes back from the first chunk, not the last.
  `Growth.ShmRightIff` and `Growth.ShmRightForMessages` say exactly when it is right,
  `Writers.Serialize` what it makes of any message, and when its assertion ends the process.
- A service's forward serializes its message into `res_bufs`
  (ngx_rpc_module/ngx_rpc_channel.cpp:50-53), but the sub-request goes out with `req_bufs` as its
  body and the length of the message (ngx_rpc_module/ngx_http_rpc.c:469-470).  By then the service's
  request was parsed, which moves `pos` to `last` (ngx_rpc_module/ngx_rpc_buffer.cpp:31-33).  So the
  sub-request has no body at all and carries the message exactly if that is empty
  (`Forwarding.SubRequestIsEmpty`); for any complete request and any message, a copy of the request
  included, there is a run in which this happens (`Forwarding.ForwardSendsNothing`).  Only a result
  with status 200 that does not parse leaves bytes behind for a further forward
  (`Forwarding.SubRequestCarries`).  For the same reason the continuation finds nothing to read after a
  result other than 200 (`Forwarding.ContinuationReadsResult`).
- The path of a sub-request is copied without its NUL.  `ForwardPath.ForwardedRightIff` says exactly
  when the right path is requested, and `ForwardPath.StaleEnd` shows two paths that go wrong.
- The Content-Length search compares over the key's own length, so any beginning of the name
  matches, the empty key too (`HeaderList.SameNameIff`, `HeaderList.BeginningMatches`).  When it
  switches to an empty part it still looks at that part's first slot: `HeaderList.SeenFindsTheSame`
  says exactly when that changes what is found, and `HeaderList.StaleSlotIsFound` shows a list for
  which it does.  A list that was only pushed to has no empty part behind the first.  The value
  stored is 32 bytes long with whatever follows the NUL.  A match in a request that has no
  Content-Length of its own makes the function write through a null pointer
  (`HeaderList.ModifyContentLength`, `HeaderList.CrashingRequest`).
- Routes are registered as written but looked up in lower case, so methods that differ only in case
  share a key (`Routes.KeysAreEqualIff`, `Routes.KeysCollide`).
- The closing comments of the generated namespaces name them in opening order
  (`Namespaces.LinesAre`).

## Model

| member | source | states |
|---|---|---|
| Links.EmptyTests | ngx_rpc_module/ngx_rpc_notify.c:177-181 | on a well-formed ring the test on `prev` and the test on `next` agree, and hold exactly when the ring is empty; first and last node are where the head points |
| Links.RingUnique | ngx_rpc_module/ngx_rpc_notify.c:157-185 | a memory holds at most one sequence as the ring of a head |
| Links.AppendRing | ngx_rpc_module/ngx_rpc_notify.c:157-162 | the four pointer writes of a push append the node to the sequence |
| Links.RemoveFirstRing | ngx_rpc_module/ngx_rpc_notify.c:177-186 | a pop leaves an empty ring alone, and otherwise returns the first node and leaves the rest as a ring |
| Links.InsertFirstRing | ngx_rpc_module/ngx_rpc_process.c:322-326 | a park puts the worker in front of the sequence |
| Links.AppendPointers | ngx_rpc_module/ngx_rpc_notify.c:157-162 | on a ring a push changes the last node's next, the head's prev and the node's own two pointers, and no others |
| Links.RemoveFirstPointers | ngx_rpc_module/ngx_rpc_notify.c:177-186 | a pop changes the head's next and the second node's prev, and leaves the popped node's pointers as they were |
| Links.InsertFirstPointers | ngx_rpc_module/ngx_rpc_process.c:322-326 | a park changes the head's next, the first node's prev and the worker's own two pointers, and no others |
| Links.AppendElsewhere | ngx_rpc_module/ngx_rpc_notify.c:157-162 | a push leaves every ring without common nodes as it is |
| Links.RemoveFirstElsewhere | ngx_rpc_module/ngx_rpc_notify.c:177-186 | a pop leaves every ring without common nodes as it is |
| Links.ParkKeepsRingIff | ngx_rpc_module/ngx_rpc_process.c:321-327 | after a park the idle list is a ring if and only if the worker was not on it |
| Links.ParkTwice | ngx_rpc_module/ngx_rpc_process.c:321-327 | parking a parked worker closes a cycle over the workers up to it that misses the head |
| Links.LassoIsNoRing | ngx_rpc_module/ngx_rpc_process.c:321-327 | with such a cycle no sequence is the ring of the head |
| Links.PushKeepsRingIff | ngx_rpc_module/ngx_rpc_notify.c:157-162 | after a push the mailbox is a ring if and only if the node was not on it |
| Notify.Notification.LinkTask | ngx_rpc_module/ngx_rpc_notify.c:155-164 | the locked region, on any memory: exactly the four writes of a push |
| Notify.Notification.PushTask | ngx_rpc_module/ngx_rpc_notify.c:153-171 | the push, then the eventfd counter up by one unless it is full |
| Notify.Notification.PopTask | ngx_rpc_module/ngx_rpc_notify.c:173-193 | the pop on any memory: the node found and exactly the writes of a removal |
| Notify.Notification.EventRead | ngx_rpc_module/ngx_rpc_notify.c:53-54 | a read succeeds exactly if the counter is positive, and leaves zero |
| Notify.Queue.TakeIdle | ngx_rpc_module/ngx_rpc_queue.c:70-80 | the take of an idle worker on any memory |
| Notify.Queue.Park | ngx_rpc_module/ngx_rpc_process.c:321-327 | the park on any memory |
| Notify.Drain | ngx_rpc_module/ngx_rpc_process.c:307-317 | without interference a drain handles every waiting node once, oldest first, and ends with the mailbox empty |
| Notify.OneCycle | ngx_rpc_module/ngx_rpc_process.c:300-330 | a drain and then one park |
| Notify.CycleRings | ngx_rpc_module/ngx_rpc_process.c:300-330 | one cycle empties the mailbox ring; it keeps the idle ring if the worker was not on it, and breaks it if the worker was first |
| Notify.ReadHandler | ngx_rpc_module/ngx_rpc_notify.c:44-63 | the handler drains everything; with no signal pending it parks the worker once, with one pending it parks twice and breaks the idle ring |
| ProtocolSteps.StepInv | ngx_rpc_module/ngx_rpc_notify.c:153-193 | every step of every process keeps the invariant: places, published fields, histories, channels, wake-ups |
| ProtocolTheorems.NoFault | ngx_rpc_module/ngx_rpc_channel.cpp:22-97 | no step of any run goes through a deleted or foreign channel, a foreign or answered request, an unset handler or field, or links a linked node; so what the receiver reads was written before the push |
| ProtocolTheorems.ExactlyOnePlace | ngx_rpc_module/ngx_http_rpc.c:326-335 | at every moment a submitted task is in exactly one place: one submission, one push, one mailbox once, one service, one sub-request, or ended |
| ProtocolTheorems.LegalIffNotBad | ngx_rpc_module/ngx_rpc_channel.cpp:22-97 | the automaton of histories accepts exactly the prefixes of Submit (Reject, or Run (Forward SubRequest Done Resume)^k Finish Respond) with matching statuses |
| ProtocolTheorems.HistoriesAreLegal | ngx_rpc_module/ngx_rpc_channel.cpp:22-97 | in every reachable state every task's history is such a prefix, in its two processes |
| LivesHappen.EveryLifeHappens | ngx_rpc_inspect_module/inspect_impl.h:36-78 | conversely, for any number of forwards and any statuses there is a run in which a task lives exactly that life and its request is answered with the last status |
| LivesHappen.RefusalHappens | ngx_rpc_module/ngx_http_rpc.c:222-228 | in both protocols there is a run in which a request is refused with 500 |
| GuardedLives.GuardedLifeHappens | ngx_rpc_module/ngx_rpc_notify.c:44-63 | in the guarded protocol there is a run in which a request is answered with any given status and its worker ends parked, alone and asleep |
| ProtocolTheorems.OneResponse | ngx_rpc_module/ngx_http_rpc.c:222-228 | a request gets one response exactly when its task ends, with the status the service finished with, or 500 when no worker was idle |
| ProtocolTheorems.NoLostWakeup | ngx_rpc_module/ngx_rpc_notify.c:153-171 | a non-empty mailbox has a positive eventfd, or a pusher between its unlock and its eventfd write, or an owner in a drain |
| ProtocolTheorems.AsleepMeansServed | ngx_rpc_module/ngx_rpc_notify.c:44-63 | a sleeping process with a zero eventfd and no pusher on the way to write it has an empty mailbox |
| ProtocolTheorems.QuiescentMeansServed | ngx_rpc_module/ngx_rpc_notify.c:44-63 | when every process sleeps at a zero eventfd and pushes nothing, each task is with its service, in a sub-request, or answered |
| Progress.NeverStuck | ngx_rpc_module/ngx_rpc_notify.c:44-63 | while a task waits in a mailbox the module can take a step of its own, where a wake-up counts only at a positive eventfd |
| Progress.RestIffIdle | ngx_rpc_module/ngx_rpc_notify.c:44-63 | no such step is possible exactly when every process sleeps at a zero eventfd with nothing to push or delete |
| Progress.BoundedWork | ngx_rpc_module/ngx_rpc_process.c:300-330 | in every interleaving the number of such steps in a row is at most a weight of the state, which each of them lowers |
| Progress.RestMeansDelivered | ngx_rpc_module/ngx_http_rpc.c:320-336 | where no such step is possible all mailboxes are empty and every task is with its service, in a sub-request, or answered |
| Progress.EveryRunSettles | ngx_rpc_module/ngx_http_rpc.c:320-336 | every run can be continued by such steps, within that bound, to a state where none is possible |
| Progress.RestIsOpen | ngx_rpc_module/ngx_http_rpc.c:320-336 | rest is no deadlock: every HTTP worker can take a new request, every service that has a task can finish it with any status or forward it, and every sub-request can end with any status |
| EventLoops.LoopHistory | ngx_rpc_module/ngx_rpc_notify.c:44-63 | in every run the turns of every process are its first handler run and whole wake-ups, of some successful reads with the handler after each, a failed read and (shipped) the handler once more, up to where the process stands; the handler is a drain, and in an RPC process a park |
| EventLoops.SleepsAfterFailedRead | ngx_rpc_module/ngx_rpc_notify.c:52-62 | no process is asleep when its last read was a success |
| EventLoops.WhereDecided | ngx_rpc_module/ngx_rpc_notify.c:44-63 | submissions, decisions of services and ends of sub-requests come while the process sleeps or drains only |
| EventLoops.DecisionsIff | ngx_rpc_module/ngx_rpc_notify.c:44-63 | in every run a new request, a decision of a service and the end of a sub-request are possible exactly if the process, by its turns, sleeps or drains and is in the middle of no push |
| EventLoops.CounterIsSignals | ngx_rpc_module/ngx_rpc_notify.c:166-171 | the eventfd holds the number of signals written since the last read, up to 2^64 - 2 |
| EventLoops.ProgramOrder | ngx_rpc_module/ngx_rpc_queue.c:70-95 | the next step of a process after a submission is its take or refusal, after a take, a decision or the end of a sub-request the link, after the link the signal, and these come at no other time |
| EventLoops.DeletesFirst | ngx_rpc_module/ngx_rpc_channel.cpp:34 | before a process pops, reads, parks, ends a drain or wakes up again it has deleted every channel that it owes |
| EventLoops.FinishOwes | ngx_rpc_module/ngx_rpc_channel.cpp:96 | a finish owes the deletion of its channel |
| EventLoops.ResumptionOwes | ngx_rpc_module/ngx_rpc_channel.cpp:34 | a continuation owes the deletion of its relay |
| Payload.ResponseIsWhatWasFinished | ngx_rpc_module/ngx_http_rpc.c:350-362 | in every run the body and Content-Length of a response are the bytes its service serialized when it finished, whatever other steps came in between |
| Payload.ResponseParses | ngx_rpc_module/ngx_rpc_channel.cpp:74-81 | in every run a response has the length of the message its service finished with, and parses to that message if it fits the writer's first chunk or fills the last |
| Payload.RefusalIsEmpty | ngx_rpc_module/ngx_http_rpc.c:222-228 | a refused request is answered with length zero and no body |
| Payload.ResultBytes | ngx_rpc_module/ngx_rpc_channel.cpp:50-53 | until the next finish or forward, res_bufs and res_length are what the last one serialized |
| Forwarding.SubRequestCarries | ngx_rpc_module/ngx_http_rpc.c:469-470 | a sub-request goes out with the length of the forwarded message, and as its body what the closure that read before the forward has left of req_bufs |
| Forwarding.SubRequestIsEmpty | ngx_rpc_module/ngx_rpc_buffer.cpp:31-34 | where closures parse and results with status 200 are complete messages, that body is empty, so the sub-request carries the message exactly if the message is empty |
| Forwarding.ForwardSendsNothing | ngx_rpc_inspect_module/inspect_impl.h:51-56 | for any complete request and any forwarded message there is a run in which the service reads that request and the sub-request goes out with the message's length and no body |
| Payload.RequestBytes | ngx_rpc_module/ngx_http_rpc.c:398-402 | what is left to read in req_bufs is the request's body, the result of a sub-request that ended with 200, or what a closure left when it read, whichever came last |
| Payload.ServiceReads | ngx_rpc_inspect_module/ngx_http_inspect_module.cpp:114-116 | a service reads the body its request came with |
| Forwarding.ContinuationReads | ngx_rpc_module/ngx_rpc_channel.cpp:26-28 | the continuation of a forward reads the sub-request's result after a 200, and otherwise what the read before the forward has left |
| Forwarding.ContinuationReadsResult | ngx_rpc_module/ngx_rpc_channel.cpp:26-28 | where results with status 200 are complete messages, it reads the result after a 200 and nothing otherwise |
| ProtocolTheorems.TargetsNeverChange | ngx_rpc_module/ngx_rpc_queue.c:89 | over a run a task's RPC process, once set, its HTTP worker and its request stay the same |
| ProtocolTheorems.ProcessAffinity | ngx_rpc_module/ngx_rpc_channel.cpp:57-66 | every closure and decision of a task happens in one RPC process, every submission, sub-request and response in the submitting HTTP worker |
| ProtocolTheorems.ChannelConservation | ngx_rpc_module/ngx_rpc_channel.cpp:22-97 | over any run the channels made for a task are those deleted so far and those alive |
| ProtocolTheorems.ChannelsAllDeleted | ngx_rpc_module/ngx_rpc_channel.cpp:34 | once a task has ended and deletions have caught up, none of its channels is alive |
| ProtocolTheorems.LifeCreations | ngx_rpc_inspect_module/inspect_impl.h:36-78 | a life with k forwards makes k + 1 channels |
| ProtocolTheorems.MailboxIsFifo | ngx_rpc_module/ngx_rpc_notify.c:153-193 | over any run the tasks popped from a mailbox are a prefix, in order, of those pushed, and the rest is waiting |
| IdleTokens.ExactlyOneToken | ngx_rpc_module/ngx_rpc_queue.c:70-95 | guarded: every RPC process is exactly one of parked, held by one submitter, linked or signalled, or draining; parked and held workers have no mail and no mailbox more than one task; the idle ring is free of repetitions |
| IdleTokens.NotHandedOutTwice | ngx_rpc_module/ngx_rpc_queue.c:72-78 | guarded: between two takes of a worker it has parked |
| IdleTokens.OneTaskPerDrain | ngx_rpc_module/ngx_rpc_process.c:307-327 | guarded: between two tasks of a worker it has parked |
| LinkMemory.MemoryHoldsMail | ngx_rpc_module/ngx_rpc_notify.c:153-193 | in every run the link memory holds every mailbox as a well-formed ring with the protocol's contents |
| LinkMemory.SubmittedNode | ngx_rpc_module/ngx_rpc_task.c:24 | the node of a new task is a ring of its own |
| LinkMemory.PopsAgree | ngx_rpc_module/ngx_rpc_notify.c:177-186 | the pointers' emptiness test and pop agree with the protocol |
| LinkMemory.GuardedIdleMemory | ngx_rpc_module/ngx_rpc_process.c:321-327 | guarded: after any run the pointers, through all its parks and takes, are the ring of the parked workers in order |
| LinkMemory.IdleRingIff | ngx_rpc_module/ngx_rpc_process.c:321-327 | after any parks and takes the pointers are a ring of the head if and only if no worker has parked that was on it |
| LinkMemory.IdleTakes | ngx_rpc_module/ngx_rpc_queue.c:72-78 | under any parks and takes a take yields a worker that has parked or none; none exactly while the ring is whole and empty |
| LinkMemory.NoRingForGood | ngx_rpc_module/ngx_rpc_process.c:321-327 | pointers that are no ring of the head never become one again, whatever is parked and taken |
| IdleRuns.RingUntilParkedAgain | ngx_rpc_module/ngx_rpc_process.c:321-327 | where every take of a run yields what the pointers yield, they are a ring of the head exactly until a worker parks that has parked before and was not taken since |
| IdleRuns.BreaksIff | ngx_rpc_module/ngx_rpc_process.c:321-327 | a step breaks the ring exactly if it parks such a worker |
| IdleRuns.OneRequestBreaks | ngx_rpc_module/ngx_rpc_notify.c:44-63 | there is a shipped run with one request, and with takes as the pointers yield them, whose last step breaks the ring: the process handles the signal and parks twice |
| IdleRuns.SpuriousWakeBreaks | ngx_rpc_module/ngx_rpc_notify.c:44-63 | there is a shipped run without any request that breaks the ring: a parked process is woken, its read fails, and it parks again |
| TaskBufs.SetBufs | ngx_rpc_module/ngx_rpc_task.c:65-114 | the destination holds the source's segments byte for byte in fresh, tight storage; the source is unchanged; the old chain is freed by the pos of its buffers; if no pos has moved each old block is freed once and live blocks change by (3n-1)-(3m-1), zero for an empty chain |
| TaskBufs.FreeChain | ngx_rpc_module/ngx_rpc_task.c:68-89 | for each node the block that starts at its pos, its buffer and the node itself but for the head are freed, in this order |
| TaskBufs.StaysLiveIff | ngx_rpc_module/ngx_rpc_task.c:68-89 | a block stays live exactly if it is no node or buffer of the old chain and no pos points to its start |
| TaskBufs.FreedWhole | ngx_rpc_module/ngx_rpc_task.c:68-89 | where no pos has moved, all blocks of the old chain but its head are freed, each once, and nothing else |
| TaskBufs.OneBufferFreed | ngx_rpc_module/ngx_rpc_task.c:68-73 | for a chain of one buffer: its data stays live exactly if pos has moved, and another block goes exactly if it lies directly behind the data and pos is at its start |
| TaskBufs.ReplaceRead | ngx_rpc_module/ngx_http_rpc.c:398-402 | so the replacement of a request that was read keeps and frees exactly those blocks |
| TaskBufs.CopyNodes | ngx_rpc_module/ngx_rpc_task.c:91-112 | the copying loop: as many nodes as the source, in order, each with its bytes and flags |
| TaskBufs.BlocksOfChain | ngx_rpc_module/ngx_rpc_task.c:95-110 | a chain of n nodes keeps 3n-1 slab blocks |
| Readers.Reader.Next | ngx_rpc_module/ngx_rpc_buffer.cpp:11-38 | on any chain for which it returns: the first of the first two buffers that has bytes left is given out, whole and once, and nothing else changes |
| Readers.Reader.SpinsForever | ngx_rpc_module/ngx_rpc_buffer.cpp:15-24 | the loop goes round for ever exactly if the first two buffers are there and used up |
| Readers.ReadOut | ngx_rpc_module/ngx_rpc_buffer.cpp:11-38 | reading to the end gives out the first two buffers, and hangs exactly if there is a second one |
| Readers.ReadAndGiveBack | ngx_rpc_module/ngx_rpc_buffer.cpp:31-43 | a copied request gives its bytes once; what its parser gives back is all that is left, and its block can be freed by `pos` exactly if that is everything |
| Growth.CountsAgree | ngx_rpc_module/ngx_rpc_buffer.cpp:89-145 | for any calls of Next and BackUp the counter is what was handed out and kept, and the chunks hold all of it but the bytes lost |
| Growth.FaithfulIff | ngx_rpc_module/ngx_rpc_buffer.cpp:104-112 | for any calls and any bytes the chunks hold exactly what was written and kept, if and only if no Next comes when part of the last part, but not all, was given back |
| Growth.SkippingCalls | ngx_rpc_module/ngx_rpc_buffer.cpp:109 | Next, BackUp(1), Next loses the first 4095 bytes, whatever they are |
| Growth.MessageContent | ngx_rpc_module/ngx_rpc_buffer.cpp:89-145 | after n calls of Next and a BackUp of k the chunks hold all bytes handed out but the last k, and the counter is their number |
| Growth.ShmRightIff | ngx_rpc_module/ngx_rpc_buffer.cpp:216-223 | the shared-memory writer agrees with the pool writer for every content if and only if there is one chunk or nothing to give back |
| Growth.ShmRightForMessages | ngx_rpc_module/ngx_rpc_buffer.cpp:216-223 | for messages: exactly those that fit the first chunk or end where a chunk ends |
| Growth.ShmLength | ngx_rpc_module/ngx_rpc_buffer.cpp:216-223 | the counter is the length of the body in any case |
| Growth.CapIs | ngx_rpc_module/ngx_rpc_buffer.cpp:115-134 | n chunks from factor ex hold 4096(n ex + n(n-1)/2) bytes |
| Growth.FirstPart | ngx_rpc_module/ngx_rpc_buffer.cpp:115-134 | a fresh writer hands out one chunk of 4096 bytes for each step of its factor |
| Growth.OneChunkHolds | ngx_rpc_module/ngx_rpc_buffer.cpp:192 | with factor 1 a message needs one chunk exactly up to 4096 bytes, and two up to 12288 |
| Growth.ChunksNeeded | ngx_rpc_module/ngx_rpc_buffer.cpp:92-134 | a message needs n chunks exactly if n hold it and n-1 do not |
| Growth.CounterFits | ngx_rpc_module/ngx_rpc_buffer.cpp:134 | with factor 1 the 32-bit counter is in range exactly up to 1023 chunks |
| Writers.PoolWriter.Next | ngx_rpc_module/ngx_rpc_buffer.cpp:89-136 | the object does what the value function does, hands out that part, and keeps all data blocks in order |
| Writers.PoolWriter.BackUp | ngx_rpc_module/ngx_rpc_buffer.cpp:138-145 | the last chunk and the counter shrink |
| Writers.ShmWriter.Next | ngx_rpc_module/ngx_rpc_buffer.cpp:160-214 | the same for the shared-memory writer, which walks to the tail |
| Writers.ShmWriter.BackUp | ngx_rpc_module/ngx_rpc_buffer.cpp:216-223 | the first chunk and the counter shrink |
| Writers.Serialize | ngx_rpc_module/ngx_rpc_channel.cpp:78-81 | a message streamed into the shared-memory writer: the counter (res_length) is the length of the message and of the body; what given-back bytes the body lacks at the end of the first chunk and has at its end instead; and exactly when the process aborts |
| Writers.BodyIsMessage | ngx_rpc_module/ngx_rpc_buffer.cpp:216-223 | such a body has the message's length, and is the message if that fits the first chunk or fills the last |
| Wire.FieldRoundTrip | ngx_rpc_inspect_module/inspect.pb.cc:230-231 | an unknown field, groups nested to any depth, reads back as it was written, whatever follows |
| Wire.FieldExtends | ngx_rpc_inspect_module/inspect.pb.cc:230-231 | more input behind an unknown field changes only what is left |
| Wire.VarintForm | ngx_rpc_inspect_module/inspect.pb.cc:245-259 | a varint is groups of seven bits with the high bit set in all but the last, whose sum of byte i mod 128 times 128^i is the number, in the fewest bytes |
| Wire.ReadsNumber | ngx_rpc_inspect_module/inspect.pb.cc:208 | any such groups, up to ten, are read as their sum, modulo 2^64 for a number and 2^32 for a tag or a length; more are refused |
| Wire.NoGroups | ngx_rpc_inspect_module/inspect.pb.cc:208 | bytes that all have the high bit set are no varint |
| Wire.FieldForm | ngx_rpc_inspect_module/inspect.pb.cc:253-256 | the bytes of each kind of field: tags 8n to 8n+5 and what follows them |
| Wire.NumbersRead | ngx_rpc_inspect_module/inspect.pb.cc:230-231 | behind tag 8n a number is read |
| Wire.Fixed64Read | ngx_rpc_inspect_module/inspect.pb.cc:230-231 | behind tag 8n+1 eight bytes are read, or nothing if there are fewer |
| Wire.Fixed32Read | ngx_rpc_inspect_module/inspect.pb.cc:230-231 | behind tag 8n+5 four bytes are read, or nothing if there are fewer |
| Wire.BytesRead | ngx_rpc_inspect_module/inspect.pb.cc:230-231 | behind tag 8n+2 a length is read and that many bytes, or nothing if it is beyond 2^31 - 1 or the input |
| Wire.GroupEnds | ngx_rpc_inspect_module/inspect.pb.cc:230-231 | a group ends at the end tag of its own number, and fails at another one or at tag zero |
| Wire.NothingRead | ngx_rpc_inspect_module/inspect.pb.cc:230-231 | the wire types 4, 6 and 7 are no fields |
| Codec.ParseKeepsOk | ngx_rpc_inspect_module/inspect.pb.cc:201-243 | parsing keeps unknown fields well nested and free of tag 10, and json empty without the has-bit |
| Codec.ConcatenationIsMerge | ngx_rpc_inspect_module/inspect.pb.cc:314-322 | if a and b parse completely so does a ++ b, to the merge of the two messages |
| Codec.ParseOntoMerges | ngx_rpc_inspect_module/inspect.pb.cc:201-243 | parsing onto a message is parsing from scratch and merging, also when parsing fails or stops |
| Codec.RoundTrip | ngx_rpc_inspect_module/inspect.pb.cc:245-259 | parsing a serialized message gives it back |
| Codec.ParseSerializeParse | ngx_rpc_inspect_module/inspect.pb.cc:201-277 | on every accepted input parse after serialize after parse is parse |
| Codec.SerializeInjective | ngx_rpc_inspect_module/inspect.pb.cc:245-277 | different messages have different serializations |
| Codec.JsonForm | ngx_rpc_inspect_module/inspect.pb.cc:245-259 | a message with json d is the byte 10, the groups of its length and d; for fewer than 128 bytes [10, length] and d |
| Codec.MessageForm | ngx_rpc_inspect_module/inspect.pb.cc:245-259 | the json, if there is one, comes in front of the unknown fields |
| Codec.JsonParses | ngx_rpc_inspect_module/inspect.pb.cc:207-217 | any groups of 10, any groups of the length of d, and d parse to the message with json d |
| Codec.ShortJsonParses | ngx_rpc_inspect_module/inspect.pb.cc:207-217 | [10, length] and d parse to the message with json d |
| Codec.StopsAt | ngx_rpc_inspect_module/inspect.pb.cc:224-229 | the loop stops at a tag zero, at the end of a group and at a malformed tag |
| Codec.CompleteInputs | ngx_rpc_inspect_module/inspect.pb.cc:201-243 | the empty input and [10, 1, 97], parsed |
| Codec.StoppedInputs | ngx_rpc_inspect_module/inspect.pb.cc:224-229 | [0], [12] and [138] stop the parser |
| Codec.FailedInputs | ngx_rpc_inspect_module/inspect.pb.cc:201-243 | [10, 2, 97], [14] and [11, 20] make it fail |
| Codec.UnknownNumber | ngx_rpc_inspect_module/inspect.pb.cc:230-231 | [8, 5] is the unknown number 5 |
| Codec.UnknownGroup | ngx_rpc_inspect_module/inspect.pb.cc:230-231 | [11, 12] is an unknown empty group |
| Codec.UnknownBytes | ngx_rpc_inspect_module/inspect.pb.cc:230-231 | [18, 1, 97] is no json but unknown bytes of number 2 |
| Codec.SizeIsLength | ngx_rpc_inspect_module/inspect.pb.cc:279-300 | the computed size is the number of bytes written |
| Codec.MergeOfSerializations | ngx_rpc_inspect_module/inspect.pb.cc:314-322 | two serializations one after the other parse like the serialization of the merge |
| Message.Message.MergePartialFromCodedStream | ngx_rpc_inspect_module/inspect.pb.cc:201-243 | the loop ends as parsing on values does, with that message, and succeeds exactly unless parsing fails |
| Message.Message.ParseFrom | ngx_rpc_inspect_module/ngx_http_inspect_module.cpp:116 | succeeds exactly if the whole input parses, with that message |
| Message.Message.SerializeWithCachedSizes | ngx_rpc_inspect_module/inspect.pb.cc:245-259 | the stream gets the serialization appended |
| Message.Message.SerializeWithCachedSizesToArray | ngx_rpc_inspect_module/inspect.pb.cc:261-277 | the array gets the same bytes at the target, returns the place behind them, and keeps every other byte |
| Message.Message.ByteSize | ngx_rpc_inspect_module/inspect.pb.cc:279-300 | within int range the result and the cached size are the length of the serialization |
| Message.Message.SendTo | ngx_rpc_inspect_module/inspect.pb.cc:201-259 | serializing one message and parsing into another makes them equal |
| Message.Message.SetJson | ngx_rpc_inspect_module/inspect.pb.h:303-310 | has-bit and content set; every other message and the ownership of strings kept |
| Message.Message.MutableJson | ngx_rpc_inspect_module/inspect.pb.h:327-334 | the has-bit is set and the message owns the string it hands out, never the shared one |
| Message.Message.ReleaseJson | ngx_rpc_inspect_module/inspect.pb.h:335-344 | the string goes to the caller with its content, or there was none; the message has no json |
| Message.Message.SetAllocatedJson | ngx_rpc_inspect_module/inspect.pb.h:345-357 | the old string is deleted, the caller's taken over |
| Message.Message.SetOwnJson | ngx_rpc_inspect_module/inspect.pb.h:345-357 | a string that the caller makes and hands over has the effect of set_json |
| Message.Message.TakeJson | ngx_rpc_inspect_module/inspect.pb.h:335-357 | a released string handed to another message moves there with its content; the has-bit tells whether there was a string, even a cleared one |
| Message.Message.ClearJson | ngx_rpc_inspect_module/inspect.pb.h:293-298 | json empty and has-bit clear, the string kept |
| Message.Message.Clear | ngx_rpc_inspect_module/inspect.pb.cc:191-199 | the message is the empty one |
| Message.Message.MergeFrom | ngx_rpc_inspect_module/inspect.pb.cc:314-322 | the message is the merge of its old value and the other |
| Message.Message.CopyFrom | ngx_rpc_inspect_module/inspect.pb.cc:330-334 | the message is the other's value, also on itself |
| Message.Message.Swap | ngx_rpc_inspect_module/inspect.pb.cc:341-348 | values and strings change places, and so does the ownership |
| Message.Message.Destroy | ngx_rpc_inspect_module/inspect.pb.cc:162-168 | the message's own string and no other is deleted |
| Message.World.Unshared | ngx_rpc_inspect_module/inspect.pb.h:303-357 | no two messages own the same string; with the contracts of all accessors this holds after any sequence of them |
| Message.World.WriteThrough | ngx_rpc_inspect_module/inspect.pb.h:293-298 | a write through a pointer kept from mutable_json keeps "no has-bit, empty json" if and only if it writes nothing or every message pointing there has its has-bit |
| Replacing.Replace | ngx_rpc_plugin/ngx_rpc_generator.cpp:59-70 | the loop ends for every non-empty search string with the string cut at its leftmost non-overlapping occurrences and joined with the replacement |
| Replacing.SplitPieces | ngx_rpc_plugin/ngx_rpc_generator.cpp:64-67 | the pieces joined with the search string are the string, and none holds an occurrence |
| Replacing.SplitLeftmost | ngx_rpc_plugin/ngx_rpc_generator.cpp:64-67 | the first cut is at the leftmost occurrence, character by character, and what is behind it is cut in the same way |
| Replacing.LengthOfReplaced | ngx_rpc_plugin/ngx_rpc_generator.cpp:59-70 | the length changes by the difference of the lengths for each occurrence |
| Replacing.CharReplaced | ngx_rpc_plugin/ngx_rpc_generator.cpp:107 | replacing one character by another changes it everywhere and nothing else |
| Replacing.CharUndone | ngx_rpc_plugin/ngx_rpc_generator.cpp:107 | the reverse replacement undoes it exactly for strings without the new character |
| Routes.DecodeRoute | ngx_rpc_plugin/ngx_rpc_module_template.h:215-233 | a decoder recovers package, service, method and form from both routes |
| Routes.RoutesAreDistinct | ngx_rpc_plugin/ngx_rpc_generator.cpp:180 | two routes are equal exactly if package, service, method and form are |
| Routes.RoutesAre | ngx_rpc_plugin/ngx_rpc_module_template.h:215-233 | the registered strings: the pieces of the package, the service and the method behind slashes, or with dots in front of the last two |
| CStrings.LowerLetters | ngx_rpc_module/ngx_http_rpc.c:257-261 | each of the 26 letters is lowered to the one 32 above it, and no other character is changed |
| CStrings.LowerAllSame | ngx_rpc_module/ngx_http_rpc.c:257-261 | two strings have one lower-cased form exactly if they are the same but for letters 32 apart |
| Routes.KeysAreEqualIff | ngx_rpc_module/ngx_http_rpc.c:258-261 | two routes share a lower-cased key exactly if they have one form and their methods differ at most in case |
| Routes.KeysCollide | ngx_rpc_module/ngx_http_rpc.c:258-261 | in any service the methods Get and get have different routes and one key |
| Namespaces.OpensInOrder | ngx_rpc_plugin/ngx_rpc_server_template.h:21-24 | a package with k dots opens k+1 namespaces, its pieces in order |
| Namespaces.LinesAre | ngx_rpc_plugin/ngx_rpc_server_template.h:21-29 | the generated lines: the pieces of the package joined by the text between two openings, and, in the same order, by the text between two closings |
| Namespaces.Balanced | ngx_rpc_plugin/ngx_rpc_server_template.h:26-29 | the closing text has exactly k+1 closing braces outside comments and no opening one, the opening text the reverse |
| HeaderList.Search | ngx_rpc_module/ngx_http_rpc.c:417-453 | the loop over parts ends and finds the first live header with the name among all it looks at, in order, or none |
| HeaderList.SeenFindsTheSame | ngx_rpc_module/ngx_http_rpc.c:422-437 | where the slots of empty parts are no headers, that is what a search of the headers proper finds exactly if every live slot of an empty part stands behind a live header |
| HeaderList.LoopFindsTheSame | ngx_rpc_module/ngx_http_rpc.c:422-437 | the same on the parts in memory |
| HeaderList.StaleSlotIsFound | ngx_rpc_module/ngx_http_rpc.c:422-437 | in a list of two empty parts a live slot of the second is found, where there is no header |
| HeaderList.ModifyContentLength | ngx_rpc_module/ngx_http_rpc.c:413-455 | exactly that header and the one the request points to get the new value, and the length is set; it fails exactly if there is no such header, and writes through a null pointer exactly if there is one and the request points to none |
| HeaderList.CrashingRequest | ngx_rpc_module/ngx_http_rpc.c:449 | a request with the header "content" and no Content-Length of its own gets there |
| HeaderList.OrdinaryRequest | ngx_rpc_module/ngx_http_rpc.c:413-455 | in a request with a "Content-Type", a dead "Content-Length" and a live one that it points to, the last gets the number and the others keep their values |
| HeaderList.SameNameIff | ngx_rpc_module/ngx_http_rpc.c:439-441 | a key matches exactly if it is a beginning of the name in any case |
| HeaderList.SameNameToNul | ngx_rpc_module/ngx_http_rpc.c:439-441 | a key with a zero byte in it matches exactly if it is the whole name up to there, in any case |
| HeaderList.NameIs | ngx_rpc_module/ngx_http_rpc.c:439-441 | the name is content-length: with its colon |
| HeaderList.WholeNameMatches | ngx_rpc_module/ngx_http_rpc.c:439-441 | "Content-Length" and "content-length" match |
| HeaderList.OthersDiffer | ngx_rpc_module/ngx_http_rpc.c:439-441 | "Content-Type", "Host" and a key that goes on behind the colon do not |
| HeaderList.BeginningMatches | ngx_rpc_module/ngx_http_rpc.c:439-441 | the key "content" is taken for the name, and so is the empty key |
| HeaderList.ShowsNumber | ngx_rpc_module/ngx_http_rpc.c:444-448 | the 32 bytes of a value, read up to the zero byte as a decimal number with a sign, are the length |
| HeaderList.ShowsOne | ngx_rpc_module/ngx_http_rpc.c:444-448 | the 32 bytes of a value, read up to the NUL, show one number only |
| ForwardPath.SetPath | ngx_rpc_module/ngx_rpc_channel.cpp:63 | the path replaces as many bytes of the buffer as it has, and no more |
| ForwardPath.ReadAfter | ngx_rpc_module/ngx_http_rpc.c:472 | what is read is the new path and behind it the end of a longer old one |
| ForwardPath.ForwardedRightIff | ngx_rpc_module/ngx_http_rpc.c:472 | a sub-request goes to the path asked for if and only if no path before it was longer |
| ForwardPath.RoomForPath | ngx_rpc_module/ngx_rpc_channel.cpp:63 | the buffer holds 128 bytes, and a path of that many leaves no zero byte in it |
| ForwardPath.StaleEnd | ngx_rpc_module/ngx_rpc_channel.cpp:63 | after "/ab" a forward to "/a" goes to "/ab" |

## Left out

- nginx and protobuf internals: epoll, connections, the slab allocator, the mutex, the hash table of routes and the sub-request engine are atomic steps, a set of live blocks that never runs out and never overlap, or an environment that completes each sub-request once.
- Failed allocations and a failed `ngx_http_subrequest`: the code ignores the latter's result, and the model lets every sub-request complete; the NGX_AGAIN call of the completion handler does nothing and is no step.
- Requests without a body, and the result of the Content-Length search, which its caller ignores.
- ProtocolTheorems.NoFault: does not model that an ended task is freed, so it does not see the debug log of ngx_rpc_module/ngx_rpc_process.c:314-316, which reads `done_notify` of a task that was already handed on and may be gone.
- Identifiers of tasks, channels and requests stand for addresses; those of ended tasks are not used again, those of deleted channels may be.
- A service calls `done` once for a request it has, or forwards, at any later moment of its process's loop; services that never answer or answer twice are not modelled.
- Payload.ResponseParses: does not model a message on which the writer's assertion ends the process (Writers.Serialize says which).
- Payload.RequestBytes: does not model a request in several buffers, whose reader never comes to its end (Readers.ReadOut), nor what a block that was freed by a moved `pos` is used for afterwards.
- Message.Message.MergePartialFromCodedStream: does not model the content of a message after a failed parse, which the library leaves open, nor the library's limits on the nesting of groups and on the total number of bytes.
- Message.Message.ByteSize: does not model sizes beyond INT_MAX, where the C++ sum overflows.
- TaskBufs.SetBufs: does not model a source whose last node has no buffer, for which the code leaves an uninitialized node behind, nor a source that shares nodes, buffers or data with the destination, which would be read after it was freed.
- Readers.Reader.Next: does not model `in_file` buffers, on which it returns nothing; `Skip` is not part of this model.
- Writers.ShmWriter.Next: does not model the `last_buf` flags, which the code does not clear on the tail it had before.
- ForwardPath.ForwardedRightIff: does not model paths of 128 bytes or more, which the buffer cannot hold.
- `ngx_http_rpc_task_destory`, the commented-out lock-free queue, the reference counts, configuration, logging, module tables, the remaining templates, `StripProto` and the protobuf descriptors.
- Request and Response have the same generated code, so one model stands for both.
