# A verified model of cocoflow

cocoflow is a coroutine framework over an event loop: tasks await each other, start in
parallel, are cancelled as trees, and receive from sockets in ways that the network's
fragmentation must not show. This project models its stateful core in Dafny and proves
what the library promises about it, for every run, every input and every tie of the event
loop.

## What is modelled

**Receiving until a pattern** (`Matching`, `RecvTillSpec`, `RecvTillProof`, `RecvTillRuns`,
`RecvTillCancel`, `SequentialRuns`, `RecvTill`). `recv_till` gives a task the bytes up to the first
occurrence of a pattern, or as many as its buffer takes. Reads come in arbitrary fragments,
bytes beyond a match stay in a carry buffer, waiters queue, resumed tasks start and cancel
receives inside the callback, and a cancelled task hands its bytes back. The specification
is `Serve`: cut the stream for one request after the other. `RecvTillSpec` is the state
machine over events and whole bursts of client actions; the class `RecvTill.Connected` keeps
`buf1`, `len1`, the queue and the callers' buffers as arrays and is proved to make the same
steps, byte for byte, by in-place copies.

**Tasks and time** (`Tasks`, `TaskTiming`, `TaskRuns`, `TaskStructure`, `TaskTracks`,
`Combinators`). Trees of
`sleep`, user tasks that await one task after another, `all_of` and `any_of`, with the
starting, counting and cancelling of the combinators. The denotation is `Finish`: sums,
maxima and minima. The second part is structured concurrency: what a combinator counts, who
won, and that nothing keeps running below a task that is over; `TaskTracks` follows every task
back to the program it was made from, so that winners are the right ones. `Combinators` has the loops
of `all_of` and `any_of` over an array of children that change in place.

**Coroutines** (`Coroutines`, `CoroutineSafety`, `CoroutineRuns`, `CoroutineSteps`, `AwaitChain`).
Await chains, the tokens
`block_to` and `finish_to`, and the switches made by yields, ends, starts, wake-ups and
cancels, for every sequence of these operations. Nothing in the code checks that a switch
lands where it should; the invariant shows that it does. `AwaitChain` has one chain as it is
in memory, task objects linked by `reuse`.

**Cancelling** (`CancelTree`, `Interruption`, `CancelAgrees`, `Uninterruptable`). The first two
follow the cancel signal through records that are updated in place: which `cancel()` is
called, in which order, and what is left; the third shows that this is the cancel of the
task trees above. The last is about children that cannot be cancelled and must be waited for:
they are left to finish, and what awaits them is unwound step by step.

**Ids and stacks** (`IdPool`, `StackLayout`). The free list of coroutine ids as an array with
a moving front, the coroutines the ids stand for, and the layout of all stacks in one piece
of memory.

**Packets** (`Framing`, `Routing`, `PlainRecv`). Length-prefixed packets out of fragments; the
router that gives a packet to the task waiting for its sequence number, to the oldest plain
receiver, or to a counter; and plain `recv` with its switching of reading on and off.

**HTTP** (`ChunkedBody`, `ChunkedBodyProof`, `HeaderFields`, `ResponseHead`,
`ResponseHeadProof`, `ResponseHeadHang`, `HttpClient`, `HttpClientProof`, `HttpClientRuns`,
`UrlParse`, `UrlParseProof`). The chunked and the Content-Length body loops on top of
`recv_till` (section 3.6.1 of RFC 2616), the response head parser (sections 6.1 and 4.2) with
the search in its table of names, and the URL parser, each against an independent printer.
`HttpClient` is the whole client: the receive of the head, the parser, and the body that the
head announces. What a server sends is what the client returns with, for every fragmentation
and down to the byte it stops at, and nothing else is reported as a success.

`Streams`, `TaskStatus` and `Scanning` hold what several modules share.

## Where the code meets its promise only under a condition

* **Cancelling a pattern receive.** The bytes of a cancelled task are appended behind the
  carry buffer (`src/tcp.cc:633`), which keeps the order when one of the two is empty
  (`CancelTransparent`). Receives for a pattern are safe to cancel in every run if and only if
  it is empty (fill mode), a single byte, or too long ever to be found (`SafeExactlyWhenShort`);
  for every other pattern there is a run that reorders the stream.
* **A buffer that fills without the pattern.** The documentation speaks of an error; the
  code reports success (`src/tcp.cc:682-683`), and the model follows the code. A success means
  that the pattern was found if and only if its first occurrence ends within the buffer
  (`FoundExactlyWhenFits`); `FillsWithoutPattern` has the runs where it does not.
* **`start` inside an awaited task.** The switch back restores the base task of the chain, not
  the innermost one (`src/cocoflow-comm.h:210`), so the next await is made by the innermost
  task if and only if the starter was a base task (`StartOnlyAtBase`).
* **Awaiting or starting a running task.** `await` puts the id back before it looks at the
  status (`include/cocoflow.h:718-726`), and `start` deletes its target. The pool stays intact
  if and only if the target does not run (`AwaitKeepsExactly`, `StartKeepsExactly`);
  `AwaitOfRunningBreaks` shows the next constructed task entering the middle of the running
  one. Legal runs do not do this.
* **Chunked body.** With a buffer that a chunk fills exactly, a further non-empty chunk makes
  the client construct a `recv_till` of length zero, whose CHECK aborts (`Refused`); sizes
  whose sum exceeds a `size_t` defeat the comparison with the capacity (`Overrun`).
  `FailsExactly` says when, for every stream, and `RefusedWitness` and `OverrunWitness` are
  short inputs.
* **A header value that ends in a space.** The trimming loop has no body
  (`extensions/http/cocoflow-http.cc:560-561`), so it never ends if and only if the lines before
  it are taken and what is taken for a value ends in a space (`HangsExactly`, for all bytes). That
  need not be a value that was sent: in a head that is cut off inside a line the last character
  is left aside (`CutOffHeadHangs`), and a field that fills the client's buffer brings such a head
  to the parser (`LongFieldHangs`). `LoopsExactly` lifts the condition to the stream.
* **A port beyond the range of `int`.** The range check comes behind `atoi`
  (`extensions/http/cocoflow-http.cc:175`). Digits are accepted if and only if the number modulo
  2^32 is a port and the number is a `long` (`PortExactly`); 4294967376 is taken for 80
  (`PortWitness`).
* **Cancelling one of several receivers.** The cancel of a receiver for a sequence number erases
  every entry with that number (`include/cocoflow.h:945-948`), so the others keep waiting if and
  only if nobody else waits for it (`CancelSparesExactly`).

## Assumptions

* The asynchronous notification after a cancel is handled before the next read, and a
  pattern is no longer than the carry buffer where the room of a read must be positive
  (`WindowPositive`). The code relies on both.
* In `Tasks`, `Interruption` and the id pool all children of a combinator are ready when it
  starts; the clock stands still while tasks run.
* `start` is called by base tasks only (see above); uninterruptable tasks occur only as in
  `Uninterruptable`.
* The connection of an HTTP client is used by nobody else, as it is a local variable of the
  client.
* A length getter and a sequence getter are functions of the bytes they are given.
* `min_len <= max_len` for `bind`; after a bad length the connection is not used again.

## Model

| member | source | states |
|---|---|---|
| Matching.BufBuf | src/tcp.cc:465-487 | the two nested loops return the end of the first occurrence of the pattern, or nothing when there is none |
| Matching.FindFrom | src/tcp.cc:465-487 | the position found is an occurrence with none before it; nothing found means no occurrence at all |
| Matching.CutStable | src/tcp.cc:639-693 | bytes that arrive later never change a cut that has been decided |
| Matching.CutMeaning | src/tcp.cc:639-693 | a decided cut is the end of the first occurrence in the whole stream, or the capacity, whichever comes first |
| Matching.CutDecided | src/tcp.cc:639-693 | a cut is decided exactly when an occurrence has been seen or capacity + pattern length - 1 bytes are there |
| Matching.FilledOrFound | src/tcp.cc:682-683 | the bytes of a decided cut end with the pattern if and only if its first occurrence ends within the capacity |
| RecvTillSpec.StartTask | src/tcp.cc:596-616 | starting keeps every waiter unfinished and only the head with progress, takes no byte, and never shortens the history |
| RecvTillSpec.CancelTask | src/tcp.cc:618-637 | the same for a cancel at any position of the queue |
| RecvTillSpec.CheckRemaining | src/tcp.cc:699-724 | the loop that serves waiters from the carry, with resumed tasks acting in between, ends and keeps the machine well formed |
| RecvTillSpec.ReadChunk | src/tcp.cc:514-574 | one read of any fragment keeps the machine well formed and adds just that fragment to the bytes received |
| RecvTillProof.RemainingCuts | src/tcp.cc:639-693 | `remaining()` finishes exactly where the cut of the stream from where the task took over is, and otherwise keeps that no occurrence begins in what it took |
| RecvTillProof.RemainingKeepsBytes | src/tcp.cc:639-693 | what `remaining()` moves from the carry to the task is neither lost nor reordered |
| RecvTillProof.StartKeeps | src/tcp.cc:596-616 | a start keeps the invariant that completed tasks, the head's bytes and the carry are the stream, cut as specified |
| RecvTillProof.CancelKeeps | src/tcp.cc:618-637 | a cancel keeps it, unless bytes had to go behind later ones |
| RecvTillProof.CheckRemainingKeeps | src/tcp.cc:699-724 | serving from the carry keeps the invariant and leaves no waiter that could be served |
| RecvTillProof.ChecksHold | src/tcp.cc:489-502 | whenever a read can happen, a task waits, and a fill-mode head is offered its own buffer only over an empty carry: the CHECKs hold |
| RecvTillProof.WindowPositive | src/tcp.cc:489-512 | the room offered to a read is positive, provided the pattern fits the carry buffer; `RecvTill.Connected.Alloc` says how much it is |
| RecvTillProof.ReadKeeps | src/tcp.cc:514-574 | a read of any fragment keeps the invariant and settles the queue |
| RecvTillProof.ServeAfter | src/tcp.cc:514-574 | the specification delivers what was delivered and then goes on with the bytes still held |
| RecvTillRuns.RunRefinesServe | src/tcp.cc:465-724 | in every run whose cancels put no bytes behind later ones, for every fragmentation and every behaviour of resumed tasks, no CHECK fails and deliveries and held bytes are the one-line specification of all bytes received |
| RecvTillRuns.FragmentationInvisible | src/tcp.cc:514-574 | two such runs with the same bytes and requests have delivered and held back the same, however the bytes were split |
| RecvTillRuns.Conservation | src/tcp.cc:514-724 | in every such run completed tasks in order, then the head's bytes, then the carry, are all bytes received |
| RecvTillRuns.EachDelivery | src/tcp.cc:639-693 | in every such run the i-th delivery is the stream from where the task took over to the end of the first occurrence, or the capacity |
| RecvTillRuns.FoundExactlyWhenFits | src/tcp.cc:639-693 | when a success means that the pattern was found: exactly when the first occurrence from where the task took over ends within its buffer |
| RecvTillCancel.SafeRunsRefineServe | src/tcp.cc:618-637 | runs without cancels, or with fill-mode and one-byte receives only, never lose the order and refine the specification |
| RecvTillCancel.CancelTransparent | src/tcp.cc:618-637 | after a cancel and its fallback everybody else gets what they would have got had the task never existed, and the grown buffer has room |
| RecvTillCancel.LongPatternScrambles | src/tcp.cc:618-637 | for every pattern of two or more bytes that fits the buffer some legal run with one cancel reorders the stream |
| RecvTillCancel.SafeExactlyWhenShort | src/tcp.cc:618-637 | the exact condition, for every pattern: receives for it keep the stream in order under all cancels if and only if it has at most one byte or is longer than the first carry buffer, where it can never be found |
| RecvTillCancel.FillsWithoutPattern | src/tcp.cc:682-683 | for every pattern that fits the carry buffer some legal run succeeds with data that do not end with it |
| RecvTillCancel.CancelRemovesOne | src/tcp.cc:618-637 | a cancel removes just the one request from those that are live |
| RecvTillCancel.CancelGrows | src/tcp.cc:622-632 | a buffer that grows has as much room again as it had in all, so that patterns that fitted still fit |
| RecvTill.Connected.TryRemaining | src/tcp.cc:639-693 | the array code computes `Remaining`: result, bytes in the caller's buffer, and the shifted carry |
| RecvTill.Connected.Check | src/tcp.cc:699-724 | the loop over queue and arrays makes the state that `CheckRemaining` specifies |
| RecvTill.Connected.Run | src/tcp.cc:596-616 | a start makes the state that `StartTask` specifies |
| RecvTill.Connected.Cancel | src/tcp.cc:618-637 | a cancel makes the state that `CancelTask` specifies, with the bytes copied into a buffer that has room |
| RecvTill.Connected.Reserve | src/tcp.cc:622-632 | the buffer grows only when needed and keeps its contents |
| RecvTill.Connected.Allocate | src/tcp.cc:489-512 | the first read for a pattern allocates the carry buffer at its first size; otherwise nothing changes |
| RecvTill.Connected.Alloc | src/tcp.cc:489-512 | a task without a pattern lends all that is left of its buffer, from where it stands; for a pattern the place is behind the carry and the room is all the rest of `buf1`, 1024 bytes at first; and just the fragments that fit are possible |
| RecvTill.EveryFragmentEnabled | src/tcp.cc:489-512 | between events the loop may deliver any fragment that fits the free space of the buffers, and no other |
| RecvTill.Connected.Receive | src/tcp.cc:514-574 | a read into the offered room makes the state that `ReadChunk` specifies, and completed tasks hold their bytes |
| RecvTill.Connected.FallbackReceived | src/tcp.cc:576-580 | the fallback makes the state of a check |
| TaskTiming.StartOnTime | src/cocoflow.cc:327-347 | a task just started is over now, or on its way to end at `Finish` |
| TaskTiming.FireOnTime | src/cocoflow.cc:349-371 | firing any timer that is due first keeps the time at which the tree will end |
| TaskTiming.StartAnyOnTime | src/cocoflow.cc:408-424 | the starting loop of `any_of`: one child is over at once, or the earliest child sets the end |
| TaskTiming.StartAllOnTime | src/cocoflow.cc:341-356 | the starting loop of `all_of`: the latest child sets the end |
| TaskRuns.FinishesOnTime | src/cocoflow.cc:327-445 | for every tie-breaking a tree of sleeps, awaits, `all_of` and `any_of` ends exactly at the sum, maximum and minimum over the tree, after at most as many steps as it has sleeps |
| TaskRuns.NotBeforeMeaning | src/sleep.cc:18-33 | a timer may fire exactly when no other one of the tree is due earlier |
| TaskRuns.SomeTimer | src/sleep.cc:18-33 | a running tree always has a timer that is due first |
| TaskStructure.AlwaysStructured | src/cocoflow.cc:327-445 | in every run `all_of` counts exactly its unfinished children; a finished `any_of` has one finished child, the one it names, and all others are canceled or never started; nothing runs below a finished task |
| TaskStructure.CancelStructured | src/cocoflow.cc:50-82 | a cancel stops a running tree for good and leaves finished ones alone |
| TaskStructure.OverIsQuiet | src/cocoflow.cc:50-82 | when a task is over, so is everything below it |
| TaskTracks.AlwaysTracks | src/cocoflow.cc:327-445 | in every run every task of the tree is at the place of its program, timers are due when its sleeps end, and every `any_of` that is over, at any depth, names a child whose program ends when the whole does |
| TaskTracks.WinnerEndsFirst | src/cocoflow.cc:395-445 | the child that `any_of` names is finished, and no other child's program ends earlier |
| TaskTracks.FireWinner | src/cocoflow.cc:425-445 | the child whose timer fired is the one named, and every other child is at its own place what a cancel makes of it |
| TaskTracks.FireTracks | src/cocoflow.cc:349-371 | firing any timer that is due first keeps every task at the place of its program |
| TaskTracks.StartTracks | src/cocoflow.cc:327-424 | so does starting |
| TaskTracks.CancelTracks | src/cocoflow.cc:50-82 | and cancelling |
| TaskTracks.TracksEnd | src/cocoflow.cc:327-445 | a running task that stands for a program ends when the program does, whatever has been fired below it |
| Combinators.AllOf.Run | src/cocoflow.cc:327-356 | the loops start every child in order and count exactly those that do not end at once |
| Combinators.AllOf.Wake | src/cocoflow.cc:358-366 | each wake-up counts one child off, and the wait ends exactly when no child runs |
| Combinators.AnyOf.StartChildren | src/cocoflow.cc:395-424 | the loop starts children in order and stops behind the first one that ends at once, which it names |
| Combinators.AnyOf.WhoCompleted | src/cocoflow.cc:433-438 | the scan names the first completed child |
| Combinators.AnyOf.CancelChildren | src/cocoflow.cc:50-82 | every running child is canceled, the others stay as they are |
| Combinators.StartAnyGoesOn | src/cocoflow.cc:408-424 | a child is started just when none before it ended at once |
| CoroutineRuns.SwitchesLand | src/cocoflow-comm.h:195-233 | in every run every yield and every end switches to a context that is parked waiting for exactly that, and every cancel of a child whose status is running finds its coroutine parked in a yield |
| CoroutineRuns.ChildIsParked | src/cocoflow.cc:50-80 | a running child of the running combinator is not below it on the stack, as children are younger than their combinators |
| CoroutineRuns.TokenSpentOnce | src/cocoflow-comm.h:214-219 | only the innermost task of a chain holds the token, and it goes to the starter at the first yield and to the event loop at every later one |
| CoroutineRuns.StartOnlyAtBase | src/cocoflow.cc:272-295 | after a started task that ends at once or yields to its starter, the next await is made by the innermost task if and only if a base task called `start` |
| CoroutineSafety.YieldOk | src/cocoflow-comm.h:214-233 | the target of a yield is parked for it |
| CoroutineSafety.FinishOk | src/cocoflow.cc:161-197 | the target at the end of a base task is parked for it, as parent, as starter or as event loop |
| CoroutineSafety.AwaitKeeps | src/cocoflow.cc:199-218 | an await hands the token to the target and keeps the invariant |
| CoroutineSafety.ReturnKeeps | src/cocoflow.cc:245-269 | the end of an awaited task hands an unspent token back |
| CoroutineSafety.StartChildKeeps | src/cocoflow.cc:45-48 | starting a child of a combinator keeps the invariant |
| CoroutineSafety.CancelChildKeeps | src/cocoflow.cc:70-80 | resuming a parked child in order to cancel it keeps the invariant; `CoroutineRuns.ChildIsParked` shows that it is parked |
| CoroutineRuns.StepKeeps | src/cocoflow.cc:145-315 | every operation keeps the invariant of the machine and the ages of coroutines |
| CoroutineSteps.AlwaysGoesOn | src/cocoflow.cc:145-315 | in every reachable state whoever has control can make every step of its task, and the loop can wake every running task whose innermost one waits for an event |
| CoroutineSteps.StepsDoWhatTheySay | src/cocoflow.cc:145-315 | in every run a new task has the kind, the parent and the starter it was given, chains grow and shrink at their ends, control goes to the starter, the loop or the parent as it should, and no other coroutine changes |
| CoroutineSteps.GivesUp | src/cocoflow.cc:161-197 | a yield goes to the starter the first time and to the loop ever after; an end goes to the combinator, else to the loop if the task has yielded, else to the starter |
| CoroutineSteps.EndsChild | src/cocoflow.cc:161-197 | an ended child is counted off by its own combinator, whose other children stay |
| AwaitChain.Context.Await | src/cocoflow.cc:199-218 | the pointer updates make the chain and the token positions that the machine's await makes, also when the current task is not the innermost one |
| AwaitChain.Context.Return | src/cocoflow.cc:245-261 | the pointer updates after an awaited task make the machine's return |
| AwaitChain.Context.SpendToken | src/cocoflow-comm.h:214-219 | the innermost task gives its token away and keeps none |
| AwaitChain.Context.SwitchedBack | src/cocoflow-comm.h:195-212 | when control is back at a coroutine its current task is the base task of the chain, as the machine has it |
| AwaitChain.Context.Innermost | src/cocoflow.cc:58-81 | the walk along `reuse` ends at the innermost task |
| Interruption.Scheduler.CancelChildren | src/cocoflow.cc:50-82 | the loop leaves every running descendant canceled with its chain unlinked, all else as it was, and the signal cleared; the log of `cancel()` calls is that of the tree |
| Interruption.Scheduler.Await | src/cocoflow.cc:224-243 | the handler of a pending await stops its target's tree, and calls `cancel()` in the specified order |
| Interruption.Scheduler.Switch | src/cocoflow.cc:145-160 | the same for the coroutine of a child, from the signal to its end |
| CancelTree.CancelReachesAll | src/cocoflow.cc:50-82 | in a tree whose places are different tasks, `cancel()` is called exactly once on every running task and on no other, nothing of the tree runs afterwards, and all else is as it was |
| CancelTree.SeparateIsDistinct | src/cocoflow.cc:50-82 | a tree of different tasks is told without repetition |
| CancelAgrees.CancelsAgree | src/cocoflow.cc:50-82 | on the same tree the records end up canceled exactly where the tree of tasks with timers does |
| CancelTree.CancelOrder | src/cocoflow.cc:224-239 | everywhere in the tree what a task awaits is told before it, the task before its children, and children in index order |
| CancelTree.Contiguous | src/cocoflow.cc:50-82 | what is told below one task is told without interruption |
| Uninterruptable.Combinator.CancelChildren | src/cocoflow.cc:50-85 | `unsupport` is the number of children that still run; only what can be cancelled has been; the combinator becomes uninterruptable if it has to wait |
| Uninterruptable.Combinator.Scan | src/cocoflow.cc:58-80 | the scan along a chain finds the first uninterruptable task |
| Uninterruptable.Combinator.AwaitEnds | src/cocoflow.cc:252-269 | the end of an await throws exactly if its target was marked canceled, and completes it either way |
| Uninterruptable.Combinator.Handlers | src/cocoflow.cc:224-239 | the interruption marks every task it passes canceled and calls its `cancel()`, from the inside out |
| Uninterruptable.Combinator.FirmReturns | src/cocoflow.cc:145-160 | the coroutine ends if and only if the task is the child itself or is marked; then everything that awaits it is canceled and told; else the chain above is as it was and nobody is told |
| Uninterruptable.UnmarkedGoesOn | src/cocoflow.cc:245-269 | an awaited uninterruptable task that nobody marked just returns: everything that awaits it is as it was, and runs on |
| Uninterruptable.MarkedUnwinds | src/cocoflow.cc:252-269 | a marked one ends completed, and everything that awaits it is canceled, and nothing else changes |
| Uninterruptable.SignalledMarks | src/cocoflow.cc:58-80 | a cancel marks the awaited uninterruptable task of a chain and no other; a chain without one is canceled whole |
| Uninterruptable.Combinator.Wake | src/cocoflow.cc:83-93 | each ended child counts one off, and the count stays the number still running |
| Uninterruptable.SignalledWaits | src/cocoflow.cc:58-68 | the mark that a cancel leaves makes a child end with its uninterruptable task |
| Uninterruptable.EachEndsOnce | src/cocoflow.cc:86-93 | no child finishes twice, and the others are untouched by it |
| Uninterruptable.AnyOrder | src/cocoflow.cc:86-93 | the children that are waited for may end in any order, each once, and in no other way |
| Uninterruptable.WaitsForAll | src/cocoflow.cc:252-269 | the combinator waits for exactly those that still run; a child that awaits an uninterruptable task runs until just that task returns, which ends completed while all that awaits it is canceled and told |
| IdPool.IdsConserved | include/cocoflow.h:718-780 | over every legal run free ids and owned ids make up the range, each once; no free id stands for a coroutine in the middle of a task; a release always has room before the front |
| IdPool.AllComeBack | include/cocoflow.h:718-780 | nothing leaks: after a legal run in which every task constructed has been awaited, destroyed, or started and ended, the free list holds the whole range again |
| IdPool.StartEntersTask | src/cocoflow.cc:145-150 | a start enters the task it names and never resumes an older one |
| IdPool.WakeResumesTask | src/cocoflow-comm.h:235-238 | a wake-up of a started task resumes that task |
| IdPool.AwaitKeepsExactly | include/cocoflow.h:718-726 | the exact condition: an await keeps the pool intact if and only if its target does not run, on its own coroutine or on its parent's |
| IdPool.StartKeepsExactly | src/cocoflow.cc:272-295 | the same of a start, which deletes a target that is not ready |
| IdPool.LegalExactly | include/cocoflow.h:718-780 | the exact condition for every operation: those that can happen keep the pool intact if and only if no running task is awaited, started or destroyed |
| IdPool.PossibleExactly | include/cocoflow.h:718-780 | what can happen to a task in an intact pool, by its status alone |
| IdPool.AwaitOfRunningBreaks | include/cocoflow.h:718-726 | the witness: if a started task that runs is awaited the next constructed task gets its id, and a switch to it resumes the first one |
| IdPool.ApplyKeeps | include/cocoflow.h:746-780 | every operation keeps the partition of the ids and the coherence of coroutines |
| IdPool.Room | include/cocoflow.h:776-780 | a list without repetition that lacks an id of the range is shorter than the range |
| IdPool.TaskPool.constructor | src/cocoflow.cc:101-106 | the array holds the range in order |
| IdPool.TaskPool.Construct | include/cocoflow.h:746-768 | the front moves over the id that the new task gets; the task is limited exactly when no id is left |
| IdPool.TaskPool.Await | include/cocoflow.h:718-726 | the id that the target held is written before the front, whatever the status is; a ready or limited target then runs on its parent's coroutine, any other is refused with -1 |
| IdPool.TaskPool.PutBack | include/cocoflow.h:776-780 | the id is written right before the old front, which never leaves the array, and nothing else of the list changes |
| IdPool.TaskPool.Start | src/cocoflow.cc:272-295 | a ready task occupies its coroutine; any other is deleted and refused with -1 |
| IdPool.TaskPool.Finish | src/cocoflow.cc:181-196 | the coroutine is at the head of its loop again; a task started on its own is gone and its id is at the front; any other keeps its id |
| IdPool.TaskPool.Destroy | include/cocoflow.h:776-780 | the task is gone, and an id that it owned is at the front |
| StackLayout.LayoutAgrees | src/cocoflow.cc:101-143 | for every list of settings no id is in two free lists, the slot of an id has the size and guard of its pool, slots do not overlap, and the last one ends at the allocated total |
| StackLayout.TotalFits | src/cocoflow.cc:107-107 | as many ids as there can be never make the total wrap |
| StackLayout.SlotsContiguous | src/cocoflow.cc:131-142 | slots follow each other without a gap |
| StackLayout.SlotOfPool | src/cocoflow.cc:131-142 | the i-th id of a pool has that pool's slot |
| StackLayout.Settings.InitSetting | src/cocoflow.cc:101-111 | the free list is the next ids in order, and the totals are those of all settings |
| StackLayout.Settings.Init | src/cocoflow.cc:113-143 | the nested loops lay out the specified slots |
| Framing.Framer.Alloc | src/tcp.cc:728-735 | the room offered is positive, within the buffer, and ends at the header or the packet |
| Framing.Framer.Receive | src/tcp.cc:737-771 | for every fragmentation packets, rest and error are those of parsing the whole stream at once |
| Framing.Framer.constructor | src/tcp.cc:113-125 | a fresh framer has received nothing |
| Framing.ParseConserves | src/tcp.cc:737-771 | packets and rest are the bytes received, and every packet has the length its header announces |
| Framing.ParseMore | src/tcp.cc:822-826 | parsing goes on from the rest when more bytes come |
| Framing.ParseBroken | src/tcp.cc:750-763 | a bad length is final |
| Framing.StatusMeans | src/tcp.cc:750-763 | why parsing stopped: the next header is missing or announces more than there is, or its length is below the header's, or above the buffer's: each exactly when |
| Routing.Priority | src/tcp.cc:772-821 | a packet goes to a waiter for its number, else to the oldest plain receiver, else to the counter that names the reason: each exactly when |
| Routing.RouteOnce | src/tcp.cc:772-821 | one packet wakes one task, which stops waiting, or moves one counter |
| Routing.ExactlyOnce | src/udp.cc:239-311 | over any run deliveries and counters add up to the packets, and every wait was answered once, or was cancelled, or still goes on |
| Routing.CancelledNotWoken | include/cocoflow.h:945-948 | a task that was cancelled while it waited is never woken and waits no more |
| Routing.WaitMoves | src/tcp.cc:448-456 | a cancel takes out just the waiters with its key, or the one plain receiver it names |
| Routing.SeenShows | src/tcp.cc:777-786 | a woken task sees the first bytes of the packet, all or as many as its buffer takes, or only the length |
| Routing.RightAnswers | src/tcp.cc:772-821 | the i-th outcome is that of the i-th packet: whoever is woken had asked for its number and sees as much of it as its buffer takes |
| Routing.FirstComeFirstServed | src/tcp.cc:803-817 | without cancels plain receivers are served in the order they came |
| Routing.Router.Deliver | src/tcp.cc:772-821 | the router makes the specified outcome and state |
| Routing.Seqer.Unwrap | include/cocoflow.h:949-964 | the waiter found leaves the mapping, and nobody else |
| Routing.Seqer.Erase | include/cocoflow.h:945-948 | every entry with the key is erased, and no other |
| Routing.CancelSparesExactly | include/cocoflow.h:945-948 | the cancel of one waiter leaves all others waiting if and only if no other one has its sequence number |
| Routing.EntryIdsWithout | include/cocoflow.h:945-948 | what is left after an erase is exactly the entries with other keys |
| PlainRecv.ReadingWhenNeeded | src/tcp.cc:379-456 | whatever woken tasks do in the callback, no CHECK fails and between events reading is on if and only if somebody waits |
| PlainRecv.EveryReadDelivered | src/udp.cc:139-177 | every read that brings bytes is delivered whole, once, in order |
| PlainRecv.ServedInOrder | src/tcp.cc:391-446 | without cancels receivers are served in the order in which they began to wait, those started in callbacks included |
| PlainRecv.OneList | src/tcp.cc:379-456 | with cancels, and whatever woken tasks do: those served, in order, and those who wait are one list; starts go to its end, a cancel takes out just the receiver it names, a read moves the border |
| PlainRecv.Socket.Run | src/udp.cc:198-216 | a start makes the specified state and switches reading on only when it is off |
| PlainRecv.Socket.Cancel | src/udp.cc:218-226 | a cancel makes the specified state |
| PlainRecv.Socket.Alloc | src/udp.cc:125-137 | the oldest receiver lends its whole buffer, or the shared one of 65536 bytes if it has none, and just the reads that fit are possible |
| PlainRecv.Socket.Read | src/tcp.cc:379-427 | the two callbacks make the specified state; a callback without data changes nothing |
| ChunkedBody.ChunkParse | extensions/http/cocoflow-http.cc:613-640 | the size is that of a run of hex digits ended by a semicolon or CRLF, or there is none |
| ChunkedBody.RecvChunked | extensions/http/cocoflow-http.cc:1144-1226 | the loop of receives leaves result, body and stream as the decoder does on the whole stream |
| ChunkedBody.RecvData | extensions/http/cocoflow-http.cc:1178-1225 | the data goes to the right place of the buffer, never beyond it |
| ChunkedBody.RecvSized | extensions/http/cocoflow-http.cc:1227-1266 | the buffer holds the first min(capacity, length) bytes, and the result is too long exactly when the length exceeds the capacity |
| ChunkedBodyProof.DecodeInvertsEncode | extensions/http/cocoflow-http.cc:1144-1226 | decoding inverts encoding for every list of chunks; a body that does not fit is cut and reported, with the exact conditions of the two failures |
| ChunkedBodyProof.DoneWasEncoded | extensions/http/cocoflow-http.cc:1144-1226 | nothing but a list of chunks of matching sizes, each ended by CRLF, then a chunk of size zero, is accepted |
| ChunkedBodyProof.FailsExactly | extensions/http/cocoflow-http.cc:1178-1201 | for every stream: the bound is defeated if and only if chunks that fit are followed by a line whose size wraps the sum, and an empty receive is asked for if and only if they fill the buffer exactly and a further chunk is announced |
| ChunkedBodyProof.OverrunExactly | extensions/http/cocoflow-http.cc:1178-1178 | both failures from the bytes received, the announced size and the capacity alone |
| ChunkedBodyProof.OverrunWitness | extensions/http/cocoflow-http.cc:1178-1178 | one byte of data and a line of sixteen digits `f` defeat the bound of every buffer |
| ChunkedBodyProof.RefusedWitness | extensions/http/cocoflow-http.cc:1178-1182 | two chunks of one byte abort a client with a buffer of one byte |
| ChunkedBodyProof.BodyThroughRecvTill | extensions/http/cocoflow-http.cc:1144-1226 | behind any receives before it, such as that of the head, a client that receives the body through `recv_till`, on any run and for any fragmentation, is where the decoder is on the bytes that have arrived behind what those took |
| RecvTillRuns.ServeFrom | src/tcp.cc:514-724 | the specification without its first receives is the specification of the stream behind what they took |
| ChunkedBodyProof.LineCut | extensions/http/cocoflow-http.cc:1150-1153 | a chunk line is just what `recv_till` takes |
| ChunkedBodyProof.LineParses | extensions/http/cocoflow-http.cc:613-640 | a line with any extension parses to the size of its digits |
| ChunkedBodyProof.LineSaturates | extensions/http/cocoflow-http.cc:613-640 | a line of any number of digits parses to their value, or to the largest size if that is beyond the type |
| ChunkedBodyProof.AnySpelling | extensions/http/cocoflow-http.cc:613-640 | every spelling of a printed size, with capital digits or small ones, is that size |
| ChunkedBody.HexMeans | extensions/http/cocoflow-http.cc:625-630 | which characters are digits of a size |
| ChunkedBodyProof.PrintedIsGood | extensions/http/cocoflow-http.cc:613-640 | every size can be printed, and parses back |
| ChunkedBodyProof.VerdictFits | extensions/http/cocoflow-http.cc:1178-1201 | chunks that fit are received whole |
| ChunkedBodyProof.VerdictCrosses | extensions/http/cocoflow-http.cc:1178-1201 | the first chunk that does not fit decides which of the three results there is |
| HeaderFields.LowerBound | extensions/http/cocoflow-http.cc:354-375 | the binary search splits a sorted table at the name |
| HeaderFields.TableSorted | extensions/http/cocoflow-http.cc:304-352 | the 47 names of the table are sorted |
| HeaderFields.CheckField | extensions/http/cocoflow-http.cc:364-375 | the binary search in the table finds what a linear lookup finds, for every name |
| HeaderFields.Recognise | extensions/http/cocoflow-http.cc:533-567 | name buffer and search together are the case-insensitive linear lookup, for every name |
| HeaderFields.LongIsUnknown | extensions/http/cocoflow-http.cc:533-540 | a name that does not fit the name buffer is not in the table |
| HeaderFields.RecognisedMeans | extensions/http/cocoflow-http.cc:364-375 | a name is recognised as a field exactly when it has that field's letters at the same places, each in either case |
| HeaderFields.UsualSpelling | extensions/http/cocoflow-http.cc:533-567 | "Content-Length" is recognised |
| Scanning.LowerIs | extensions/http/cocoflow-http.cc:28-34 | of all spellings of a word the lower-case one is that without capitals |
| Scanning.ClassesMean | extensions/http/cocoflow-http.cc:28-34 | which characters are digits and letters |
| ResponseHead.FieldOfMeans | extensions/http/cocoflow-http.cc:564-582 | which spellings are the two fields the client needs |
| ResponseHead.AcceptableMeans | extensions/http/cocoflow-http.cc:570-592 | a length is one decimal digit or more, the transfer coding just the word chunked |
| ResponseHead.PutErrors | extensions/http/cocoflow-http.cc:564-600 | a bad value is reported before a second field of the same kind, each exactly when |
| ResponseHead.CharactersMean | extensions/http/cocoflow-http.cc:494-529 | which characters are in names and phrases |
| ResponseHeadProof.StatusErrors | extensions/http/cocoflow-http.cc:464-504 | for all bytes: the errors of version, status code and phrase, each if and only if that part of the line is not as it should be |
| ResponseHead.ParseResponse | extensions/http/cocoflow-http.cc:450-611 | the index loops compute `Parse` and never leave the buffer |
| ResponseHead.ParseFields | extensions/http/cocoflow-http.cc:504-611 | the loop over the lines |
| ResponseHead.ParseValue | extensions/http/cocoflow-http.cc:545-562 | a value from the first character that is no space to CRLF, or to the last character but one |
| Scanning.Scan | extensions/http/cocoflow-http.cc:518-529 | the loops over one class of characters stop at the first other one |
| ResponseHead.ScanLine | extensions/http/cocoflow-http.cc:553-559 | the loop stops at the first CRLF |
| ResponseHeadProof.ParseInvertsPrint | extensions/http/cocoflow-http.cc:450-611 | parsing inverts printing for every status, phrase and list of fields, or gives the error of the first bad field |
| ResponseHeadProof.PutAllMeaning | extensions/http/cocoflow-http.cc:564-597 | the fields are taken if and only if no value ends in a space, each needed field is acceptable and none occurs twice; then they are just the needed ones |
| ResponseHeadHang.HangsExactly | extensions/http/cocoflow-http.cc:450-611 | for all bytes: the parser loops for ever if and only if they are a status line, lines that are taken, and then a line, complete or cut off, what is taken for whose value ends in a space |
| ResponseHeadHang.FieldsHangExactly | extensions/http/cocoflow-http.cc:504-562 | the same of the loop over the fields, from any values taken before |
| ResponseHeadHang.HeadThatHangs | extensions/http/cocoflow-http.cc:560-561 | a printed head of one field on which it does |
| ResponseHeadHang.CutOffHeadHangs | extensions/http/cocoflow-http.cc:553-561 | heads that are cut off inside their only field, on which it does although no value ends in a space |
| ResponseHeadHang.LongFieldHangs | extensions/http/cocoflow-http.cc:1075-1080 | such a head reaches the parser: a long field fills the client's buffer, which is a success of the receive |
| ResponseHeadProof.ParsedWasPrinted | extensions/http/cocoflow-http.cc:450-611 | whatever is parsed successfully was printed, down to the last byte |
| HttpClient.Recv | extensions/http/cocoflow-http.cc:1067-1280 | the whole client leaves reply, body and stream as the session does on the whole stream, and writes nothing beyond the buffer |
| HttpClient.PlayChunks | extensions/http/cocoflow-http.cc:1144-1226 | behind a head the session on a chunked body is the chunk decoder |
| HttpClient.PlaySized | extensions/http/cocoflow-http.cc:1227-1271 | a body of announced length is one receive of min(capacity, length) bytes, none for length zero |
| HttpClient.ParsedSound | extensions/http/cocoflow-http.cc:564-597 | every field in a parsed head has an acceptable value, so the length conversion is of decimal digits |
| HttpClientProof.HeadCut | extensions/http/cocoflow-http.cc:1075-1080 | a printed head that fits the client's buffer is just what the first receive takes, whatever follows |
| HttpClientProof.ChunkedArrives | extensions/http/cocoflow-http.cc:1067-1280 | of a sent response with a chunked body the client gets status, phrase, the needed fields and the whole body, and takes no byte more; a body that does not fit is decided by its first chunk that does not |
| HttpClientProof.SizedArrives | extensions/http/cocoflow-http.cc:1067-1280 | the same for an announced length in any spelling: the body whole, or cut at the capacity and reported as too long exactly when it is longer |
| HttpClientProof.IgnoredArrives | extensions/http/cocoflow-http.cc:1140-1142 | without a buffer the head is received and the body left alone |
| HttpClientProof.SuccessWasSent | extensions/http/cocoflow-http.cc:1067-1280 | whatever stream the client reports success on is a printed head with that status, phrase and fields, then a body as they announce it, down to the last byte taken |
| HttpClientProof.RepliesMean | extensions/http/cocoflow-http.cc:1075-1240 | the exact conditions of a failed receive of the head, of each parse error, and of a head without a length |
| HttpClientProof.Literals | extensions/http/cocoflow-http.cc:1073-1080 | the buffer lengths and patterns of the client's receives |
| HttpClientProof.LoopsExactly | extensions/http/cocoflow-http.cc:1075-1098 | the exact condition for the client never to return: what its first receive takes is a head on which the parser never ends |
| SequentialRuns.SequentialWaits | src/tcp.cc:465-724 | a task that makes any list of receives one after the other, on reads of any fragments, has at any moment just the results of the specification and waits for the next, and no byte is lost |
| SequentialRuns.BurstYields | src/tcp.cc:596-616 | between two yields such a task gets all that the carry serves |
| SequentialRuns.SinglesLegal | src/tcp.cc:489-512 | a stream can arrive byte by byte as long as the task waits |
| HttpClientRuns.SessionThroughRecvTill | extensions/http/cocoflow-http.cc:1067-1280 | on any run and for any fragmentation a client that makes the session's receives is where the session is on the bytes that have arrived, head and body |
| HttpClientRuns.ClientOverAnyFragments | extensions/http/cocoflow-http.cc:1067-1280 | for every stream and fragmentation the client's own run makes just those receives, and loses nothing |
| HttpClientRuns.ChunkedReceived | extensions/http/cocoflow-http.cc:1067-1280 | in whatever fragments a chunked response arrives, once it is there the client has returned with status, phrase, fields and body, and what follows is left on the connection |
| HttpClientRuns.SizedReceived | extensions/http/cocoflow-http.cc:1067-1280 | the same of a response of announced length |
| HttpClientRuns.ArrivesByteByByte | extensions/http/cocoflow-http.cc:1067-1280 | there is such a run for every stream that the client takes whole |
| UrlParse.PortExactly | extensions/http/cocoflow-http.cc:162-178 | digits are accepted as a port if and only if their value modulo 2^32 is one and the value is a `long` |
| UrlParseProof.PortWitness | extensions/http/cocoflow-http.cc:175-177 | a number beyond the range that is taken for port 80 |
| UrlParse.ScanAuthority | extensions/http/cocoflow-http.cc:82-145 | the scan with its eight pointers splits at the separators exactly as specified, with the same refusals |
| UrlParse.ParseUrl | extensions/http/cocoflow-http.cc:36-241 | the loops compute `Parse`, errors included |
| UrlParseProof.ParseInvertsPrint | extensions/http/cocoflow-http.cc:36-241 | parsing inverts printing for all well-formed components |
| UrlParseProof.ParsedPrintsBack | extensions/http/cocoflow-http.cc:36-241 | whatever is parsed is well formed and normal, and printing and parsing it again gives it back |
| UrlParseProof.ParsedSpelling | extensions/http/cocoflow-http.cc:36-241 | protocol and host of whatever is parsed have no capitals and agree with the URL letter for letter |
| UrlParseProof.AnySpelling | extensions/http/cocoflow-http.cc:36-241 | printed components in any spelling come back, protocol and host without capitals |
| UrlParseProof.AuthorityRefusals | extensions/http/cocoflow-http.cc:82-145 | by the order of colons and at-signs alone: which authorities are taken, and the exact condition of each refusal from -4 to -6 |
| UrlParseProof.AssembleRefusals | extensions/http/cocoflow-http.cc:147-178 | the exact condition of each refusal of host and port from -7 to -9 |
| UrlParseProof.ProtocolRefusals | extensions/http/cocoflow-http.cc:60-81 | the exact condition of each refusal of the protocol from -1 to -3, for every URL |
| UrlParse.CharactersMean | extensions/http/cocoflow-http.cc:60-160 | which characters end which part |

## Left out

* libuv, ucontext and Fiber calls, `mmap` and `mprotect`, sockets and addresses, DNS: events,
  parameters and offsets stand for them.
* Debug logging, demangling and the map-count check: no effect on the state modelled.
* The redis extension, `connect`, `accept`, `send`, `sync` and ignore mode: thin wrappers that
  would add only easy members.
* Request printing, the reason-phrase table and the error messages of the HTTP client; the length
  announced by Content-Length saturates at a `size_t`, as a chunk size does.
* Read errors and the broadcast that fails all waiters of a broken connection; use of a
  connection after it was destroyed in a callback.
* Bytes handed to a callback with a length of zero, except in `PlainRecv`.
* Children that are not ready when a combinator starts, and tasks beyond the limit of a pool
  inside combinators.
* User tasks are sequences of awaits in `Tasks`; their own computation is not modelled.
* Which of several waiters with the same sequence number is woken: the model takes the one
  inserted first, which the standard container does not promise.
* A chain that changes while its uninterruptable task is still running: `Uninterruptable` keeps
  the chain up to that task.
- RecvTill.Connected.Check: resumed tasks do nothing in the array class, because a callback that re-enters the object would need its whole state in every contract; `RecvTillSpec.CheckRemaining` and all results on runs let resumed tasks start and cancel receives.
- RecvTill.Connected.Receive: as for `Check`, and the buffers of waiting tasks and of completed ones not yet collected are assumed to be distinct from each other and from `buf1`.
- Interruption.Scheduler.CancelChildren: does not include uninterruptable tasks, which `Uninterruptable.Combinator.CancelChildren` treats.
- Uninterruptable.Combinator.CancelChildren: marks an interruptible chain as canceled in one step; `Interruption` gives the steps.
- IdPool.TaskPool.Construct: one pool at a time; ids are shared out among pools by `StackLayout`.
- UrlParse.PortExactly: takes `atoi` as glibc has it with a `long` of 64 bits; the C standard leaves a value beyond `int` open.
- ChunkedBody.ChunkParse: a size beyond `size_t` saturates, as `strtoul` does; the standard leaves it open.
- RecvTill.Connected.FallbackReceived: as for `Check`.
- IdPool.TaskPool.Await: when every id of the pool is free and a task that is awaited already is awaited again, the code writes before the array, which is not modelled.
- IdPool.TaskPool.Start: as for `Await`.
