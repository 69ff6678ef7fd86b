# ttddbg, verified

ttddbg presents a recorded Time Travel Debugging trace to IDA as if it were a
live debuggee.  This project models the stateful parts between the TTD engine
and IDA and proves how they fit together.

| file | content |
|---|---|
| `Positions.dfy`, `Recordings.dfy`, `Sorting.dfy`, `Widths.dfy` | positions and their order, what the engine knows about a recording, sorting by position, integer widths |
| `Events.dfy` | debug events, the event queue, and the view a consumer builds from events |
| `Differences.dfy` | the events of one cursor move, and their effect on a view |
| `Sessions.dfy` | the debugger automaton as a step relation, and runs of it |
| `Synchronisation.dfy`, `Consumer.dfy`, `StreamGrammar.dfy`, `Automaton.dfy` | what holds over all runs |
| `Cursors.dfy`, `Manager.dfy`, `Actions.dfy`, `Breakpoints.dfy`, `Driver.dfy` | cursor, manager and toolbar actions as classes and methods, proved against the step relation, and a client that drives them through a session |
| `Pairing.dfy`, `Tracer.dfy`, `FullRuns.dfy` | thread lifetimes paired by index, the function tracer, what a full run records |
| `TracerProtocol.dfy`, `DequeProtocol.dfy` | the two mutex-guarded structures under every interleaving of their critical sections |
| `Timelines.dfy` | named positions mirrored into netnodes |
| `PositionText.dfy`, `CallConv.dfy`, `MemoryText.dfy` | position text, stack arguments, strings in memory |

`dafny verify dfyconfig.toml` checks everything.

## How it is modelled

- The engine is a `Recording`: moments in position order, each with the lists a
  cursor standing there returns.  A module pointer is an index into the engine's
  module list, so two modules can share a path and still differ.
- A replay stops anywhere up to its limit and makes progress unless it is there
  already.  The number of steps and the watchpoints therefore never enter a
  proof.  `SetPosition` is exact on recorded positions and lands on some moment
  for others.
- A forward replay from one moment to another calls back for every call and
  return executed from the first up to, but not including, the second.
- A consumer adds and removes threads by id and modules by name, as the events
  say; nothing else about IDA is assumed.
- Target-ness is an arbitrary predicate on the module's path.
- `continue_process` is one call of `OnResume` that is over when it returns.
- The position order is lexicographic on (Major, Minor).  `%X` prints the low 32
  bits of its argument and `long` has 32 bits, as on 64-bit Windows.
- `std::sort` leaves the order of equal positions open; only sortedness and
  permutation are used of it.

Preconditions that the source takes for granted and the model states:

- The cursor's thread list begins with the current thread and its module list
  with the main module at the first position (`MainFirst`); for threads this is
  also shown to be necessary (`StartThreads`).
- A consumer follows a path that one module at a time carries at the moments the
  run visits (`AloneThroughout`).  For paths that modules share, the exact
  condition is `Followed` (`InStepAfterMove`, `TracksThroughoutIff`);
  `SharedPathIsLost` is a run that fails it.
- A full run needs one creation and one termination event per thread, at
  recorded positions, both lists in position order (`LifeStory`).  A thread that
  is still running at the end of the recording has no termination event; the
  source then reads past the end of the list (`EveryPairExistsIff`).

Results that differ from what the documentation suggests:

- A full run records a call once per thread alive at its position, so with
  several threads calls appear more than once (`RecordedPerLivingThread`,
  `CallIsRecordedTwice`).
- `m_resumeMode` is not reset by jumps and back-steps: a step request made before
  a jump is carried out by the resume after it (`ModeWaits`, `StepOutlivesRequests`,
  `StepAfterJump`).
- Deleting one of two timeline entries of the same name removes their common
  node; the other is stored again by the next addition (`DeleteKeepsStoredIff`,
  `TwinIsLostUntilNextAdd`, `AddTwiceDeleteOnce`).  `ReloadIff` says exactly when
  a timeline survives a reload.
- A nameless position is stored but never loaded (`LoadMirrors`, `NamelessMirror`,
  `NamelessIsNotReloaded`).
- "Go to position" refuses an answer only if it has no colon: the test for a
  missing minor never succeeds (`RefusedIffNoColon`, `MissingMinor`,
  `FiveWithoutMinor`).  An empty or unreadable number counts as 0
  (`StrtolIsZero`), and going to 0:0 makes no jump but cancels a pending one
  (`NoJumpIffZeros`, `ColonIsNoJump`, `GotoZeros`).
- Printed positions lead back to themselves only below 2^31 (`TextRoundTrip`).
- Mixed breakpoint batches are not fully carried out (`BatchIsCarriedOut`).
- On x64 the address copied for a stack argument is cut to 32 bits, and on x86 an
  address is offered for fastcall arguments the reader does not read
  (`OfferedAddress`); the contents of an x64 pointer are cut as well
  (`CopiedPointer`).
- Arguments smaller than the 4 or 8 bytes the readers fetch are read together with
  what follows them (`X86ArgumentReadsBack`, `X64ArgumentReadsBack`).

## Model

Methods that set one field or append one event state their whole effect in their
contracts and have no row.

| member | source | states |
|---|---|---|
| `Synchronisation.ViewSynchronised` | ttddbg/src/ttddbg_debugger_manager.cc:144-484 | In every state of every run delivered plus queued events give exactly the cursor's threads; of each non-target path that the moments visited let them convey, one module at a time for one, exactly whether it is loaded and where; of such a target path, what is at the cursor; once the queue is drained the delivered events alone do |
| `Synchronisation.TracksThroughoutIff` | ttddbg/src/ttddbg_debugger_manager.cc:144-484 | Exactly when the log keeps its consumer right about a path in every state of a run: the path has one base at each moment visited and, unless it is a target, no move makes one of its modules go while another stays and none comes |
| `Synchronisation.SharedPathIsLost` | ttddbg/src/ttddbg_debugger_manager.cc:456-483 | A recording with two modules of one path, and a run over it: at one stop the consumer has a wrong base, at the next it takes a loaded path for unloaded |
| `Synchronisation.ThreadsStaySynced` | ttddbg/src/ttddbg_debugger_manager.cc:418-454 | The thread part, by induction over the run |
| `Synchronisation.PathIndependence` | ttddbg/src/ttddbg_debugger_manager.cc:381-484 | Two runs that end at one moment leave a consumer with the same threads and, where both runs let it follow the path, the same non-target modules, whatever steps, continues and jumps they took |
| `Synchronisation.TargetsAreSticky` | ttddbg/src/ttddbg_debugger_manager.cc:153-172 | A target path is known exactly if it was announced at the start or was at the cursor in some state so far |
| `Synchronisation.TargetsKeepTheirBase` | ttddbg/src/ttddbg_debugger_manager.cc:456-483 | A followed target that has left the cursor stays known at the base it had in the last state that found it there |
| `Synchronisation.StartThreads` | ttddbg/src/ttddbg_debugger_manager.cc:144-178 | The start-up events give the right threads if and only if the cursor lists its current thread first |
| `Synchronisation.StartModule` | ttddbg/src/ttddbg_debugger_manager.cc:144-189 | With the main module listed first, the start-up events give the right modules of a path if and only if these have one base |
| `Synchronisation.StartTarget` | ttddbg/src/ttddbg_debugger_manager.cc:153-189 | Which target paths are known after the start-up events |
| `Differences.MoveKeepsThreads` | ttddbg/src/ttddbg_debugger_manager.cc:438-454 | The difference events of a move take a view of the old moment's threads to one of the new moment's |
| `Differences.InStepAfterMove` | ttddbg/src/ttddbg_debugger_manager.cc:456-483 | A view that is right about a path is right after a move if and only if the modules of that path at the new moment have one base and, unless it is a target, not one went, another stayed and none came; so unloading by name is safe when a module is replaced by another object of its path |
| `Differences.MoveTarget` | ttddbg/src/ttddbg_debugger_manager.cc:462-483 | No move makes a target path unknown, and a move adds exactly the target paths at its end |
| `Differences.PresenceAfterMove` | ttddbg/src/ttddbg_debugger_manager.cc:456-483 | Whether a path is known stays right over a move if and only if not one of its modules goes, another stays and none comes |
| `Differences.ObserveMove` | ttddbg/src/ttddbg_debugger_manager.cc:438-484 | What the four groups of difference events do to a view, one after the other |
| `Differences.ObserveExits` | ttddbg/src/ttddbg_debugger_manager.cc:445-449 | Exit events remove exactly the exited threads |
| `Differences.ObserveStarts` | ttddbg/src/ttddbg_debugger_manager.cc:450-454 | Start events add exactly the started threads |
| `Differences.ObserveUnloads` | ttddbg/src/ttddbg_debugger_manager.cc:462-472 | Unload events remove exactly the non-target names |
| `Differences.ObserveLoads` | ttddbg/src/ttddbg_debugger_manager.cc:474-483 | Load events add exactly the names loaded, each at the base of a module of that name |
| `Differences.Ascending` | ttddbg/src/ttddbg_debugger_manager.cc:442-443 | Traversal of a std::set: the same elements, strictly ascending |
| `Consumer.EveryStopIsAccurate` | ttddbg/src/ttddbg_debugger_manager.cc:259-310 | For every stop event in the log of a run, the events up to it describe exactly one moment, with all its threads and every path the states so far let a consumer follow: the one of the state whose log ended with that event, where the cursor stood when the stop was sent; thread and address of the stop are that moment's |
| `Consumer.DeliveredStopIsAccurate` | ttddbg/src/ttddbg_debugger_manager.cc:207-219 | So a consumer whose last event was a stop knows all threads and all followed paths of the state that sent it, whatever is still queued |
| `Consumer.EveryLoadIsGenuine` | ttddbg/src/ttddbg_debugger_manager.cc:144-189 | Every module announced in a run is an entry of the engine's module list with its own base and size, and a rebase is requested exactly for target paths |
| `StreamGrammar.StreamIsWellFormed` | ttddbg/src/ttddbg_debugger_manager.cc:144-310 | In every state of every run the log is process start, loads and thread starts, a breakpoint, then complete blocks of exits, starts, unloads, loads and one stop event; it never ends inside a block |
| `StreamGrammar.StreamAlternates` | ttddbg/src/ttddbg_debugger_manager.cc:438-484 | Over any run start and exit alternate for each thread, and load and unload for each non-target path that one module at a time carries at the moments visited |
| `StreamGrammar.ScanBlock` | ttddbg/src/ttddbg_debugger_manager.cc:438-484 | The events of one move and its stop lead from just after a stop to just after a stop |
| `StreamGrammar.MoveAlternates` | ttddbg/src/ttddbg_debugger_manager.cc:438-484 | From a synchronised view, each difference event of a move brings news |
| `Automaton.OneStopPerResume` | ttddbg/src/ttddbg_debugger_manager.cc:259-310 | The log gains one stop event for each resume after a stop that has a supported mode or a pending request, and none for anything else |
| `Automaton.StopKind` | ttddbg/src/ttddbg_debugger_manager.cc:259-310 | A productive resume announces the thread and, for a breakpoint, the address of the moment it leads to; as a step if and only if a step was asked for and no jump or back-step came before it |
| `Automaton.OneEventPerRequest` | ttddbg/src/ttddbg_debugger_manager.cc:207-219 | Over any stretch the events delivered grow by one for each request that found something queued, and by nothing else |
| `Automaton.RequestsDrainTheQueue` | ttddbg/src/ttddbg_debugger_manager.cc:207-219 | As many requests as events are queued deliver the whole log and leave the cursor where it is |
| `Automaton.ResumesGoForward` | ttddbg/src/ttddbg_debugger_manager.cc:290-307 | Going forward, n productive resumes come at least n moments closer to the end, where they end |
| `Automaton.DirectionParity` | ttddbg/src/ttddbg_debugger_manager.cc:487-490 | The direction differs from its initial value exactly after an odd number of switches: no resume leaves it changed |
| `Automaton.JumpFires` | ttddbg/src/ttddbg_debugger_manager.cc:263-271 | A requested jump to a recorded position survives everything up to the next resume after a stop, which lands on it, clears it, and leaves a pending back-step armed |
| `Automaton.JumpsAreConserved` | ttddbg/src/ttddbg_debugger_manager.cc:263-271 | Jumps made, jumps replaced or cancelled, and the one still pending are together the jumps requested: none is made twice and none is forgotten |
| `Automaton.BackStepsAreConserved` | ttddbg/src/ttddbg_debugger_manager.cc:274-287 | Back-steps armed at first or by a request are each made once or still armed: no command arms one by itself, makes one twice or loses one |
| `Automaton.BackStepFollowsJump` | ttddbg/src/ttddbg_debugger_manager.cc:263-287 | A back-step armed together with a jump is made by the resume after the jump, backward whatever the direction |
| `Automaton.ModeWaits` | ttddbg/src/ttddbg_debugger_manager.cc:263-309 | Over any stretch in which no mode is set, the mode is what it was if there was no plain resume, and Continue otherwise: resumes diverted to a jump or a back-step do not reset it |
| `Automaton.ModeIsKept` | ttddbg/src/ttddbg_debugger_manager.cc:368-372 | Whatever mode was set, supported or not, holds until the first plain resume |
| `Automaton.StepOutlivesRequests` | ttddbg/src/ttddbg_debugger_manager.cc:263-309 | A step asked for before any number of jumps and back-steps is made, and announced as a step, by the first plain resume after them |
| `Automaton.StepAfterJump` | ttddbg/src/ttddbg_debugger_manager.cc:263-309 | In every recording, a run that asks for a step and then for a jump, and resumes twice, ends with a step event |
| `Sessions.StepLog` | ttddbg/src/ttddbg_debugger_manager.cc:259-310 | Any command leaves the log and the cursor alone, or appends one move's differences and one stop event of its end |
| `Sessions.StepPicture` | ttddbg/src/ttddbg_debugger_manager.cc:259-310 | The effect of a command on what a consumer knows is the effect of its move |
| `Actions.BackwardStateRequest` | ttddbg/src/ttddbg_action.cc:8-17 | Resumes in the other direction and restores the direction |
| `Actions.BackwardSingleStepRequest` | ttddbg/src/ttddbg_action.cc:26-34 | Arms the back-step and resumes |
| `Actions.PressesGoBack` | ttddbg/src/ttddbg_action.cc:8-34 | n presses of the two backward buttons, in any mixture and with events fetched or anything else quiet in between, stop n times, come at least n moments closer to the beginning, where they end, and leave the debugger going forward with nothing pending |
| `Actions.ChooseRow` | ttddbg/src/ttddbg_position_chooser.cc:70-81 | Choosing a timeline row resumes with its position pending; a row out of range does nothing |
| `Actions.GotoPrinted` | ttddbg/src/ttddbg_debugger_manager.cc:586-613 | Going to the printed form of a recorded position stops there; {0, 0} cancels a pending jump and resumes |
| `Actions.GotoZeros` | ttddbg/src/ttddbg_debugger_manager.cc:586-613 | An answer whose numbers both read as zero, an empty one included, makes no jump: it cancels a pending one and resumes as the back-step, the mode and the direction say |
| `Manager.DebuggerManager.OnStartProcess` | ttddbg/src/ttddbg_debugger_manager.cc:122-195 | Populates an empty timeline, puts the cursor on the first position, resets direction and mode, and queues exactly the start-up events |
| `Manager.DebuggerManager.OnGetDebugEvent` | ttddbg/src/ttddbg_debugger_manager.cc:207-219 | Delivers the oldest queued event, if any |
| `Manager.DebuggerManager.OnResume` | ttddbg/src/ttddbg_debugger_manager.cc:259-310 | Takes exactly the resume step of the session; an event that is no stop changes nothing; asks the engine for one replay to the end or the beginning, unbounded to continue and of one step to step or step back, or for none; a forward replay lets the tracer record its span, without a replay it records nothing |
| `Manager.DebuggerManager.ApplyDifferences` | ttddbg/src/ttddbg_debugger_manager.cc:438-484 | Pushes exactly the difference events of the four sets, in order |
| `Manager.DebuggerManager.ApplyCursorSteps` | ttddbg/src/ttddbg_debugger_manager.cc:381-402 | Replays in the current direction and pushes the differences of the move |
| `Manager.DebuggerManager.ApplyCursorPosition` | ttddbg/src/ttddbg_debugger_manager.cc:405-415 | Goes to a position and pushes the differences of the move |
| `Manager.DebuggerManager.GotoPosition` | ttddbg/src/ttddbg_debugger_manager.cc:586-613 | An answer with a colon becomes the pending jump of an immediate resume; any other answer changes nothing |
| `Manager.DebuggerManager.OnUpdateBpts` | ttddbg/src/ttddbg_debugger_manager.cc:341-365 | Watches the first nadd entries and then removes so many as ndel exceeds nadd, each at its own address with the size given and the flags of the first; reports their number |
| `Driver.Drive` | ttddbg/src/ttddbg_debugger_manager.cc:197-310 | A client that issues any commands to a started manager goes through a run of the session, and ends in its final state |
| `Driver.DriveAndObserve` | ttddbg/src/ttddbg_debugger_manager.cc:144-484 | So the events the manager has ever pushed are then well formed and tell the threads at its cursor and, of every path one module at a time carried, the module there |
| `Breakpoints.BatchIsCarriedOut` | ttddbg/src/ttddbg_debugger_manager.cc:341-365 | A breakpoint batch is carried out as asked if and only if it only adds or only deletes and its entries translate to the same flags |
| `Breakpoints.BatchCalls` | ttddbg/src/ttddbg_debugger_manager.cc:341-365 | Which entries of a batch, mixed ones included, are added and which removed |
| `Breakpoints.FromIdaBptType` | ttddbg/src/ttddbg_debugger_manager.cc:15-32 | Reads are watched for read types, writes for write types, both for read-write, and execution for all others |
| `Manager.DebuggerManager.RequestFullRun` | ttddbg/src/ttddbg_debugger_manager.cc:493-539 | Terminates, restores the cursor and changes no other session state; every invocation is gained (threads alive at its position) times (its occurrences there); from an empty list, the list holds exactly the traced calls and returns at positions where some thread is alive; a sorted list stays sorted |
| `Manager.DebuggerManager.ReplayPair` | ttddbg/src/ttddbg_debugger_manager.cc:510-529 | One round of the outer loop records what lies between the i-th creation and the i-th termination |
| `Manager.DebuggerManager.ReplayUntil` | ttddbg/src/ttddbg_debugger_manager.cc:519-529 | The chunked inner loop ends exactly at its end position, having recorded the span before it once, whatever chunks and watchpoints do |
| `Pairing.PairsAreOrdered` | ttddbg/src/ttddbg_debugger_manager.cc:510-514 | Pairing by index: the lists are equally long and no creation comes after the termination of the same index |
| `Pairing.PairingCoversLives` | ttddbg/src/ttddbg_debugger_manager.cc:510-514 | Each position lies in exactly as many index-paired intervals as threads are alive there |
| `Pairing.UnionOfPairsIsUnionOfLives` | ttddbg/src/ttddbg_debugger_manager.cc:510-514 | The union of the index-paired intervals is the union of the true thread lifetimes |
| `Pairing.EveryPairExistsIff` | ttddbg/src/ttddbg_debugger_manager.cc:510-514 | The pair loop stays inside the list of terminations if and only if no thread is still running at the end; otherwise it reads as many entries past it as threads are |
| `FullRuns.RecordedPerLivingThread` | ttddbg/src/ttddbg_debugger_manager.cc:510-529 | A full run records each call or return once for every thread alive at its position |
| `FullRuns.CompleteAndSound` | ttddbg/src/ttddbg_debugger_manager.cc:510-533 | An invocation is among those replayed if and only if some thread is alive at its position and it tells of a call of a traced function, or a return from inside one, executed there |
| `FullRuns.RecordedOnceIffOneThreadAlive` | ttddbg/src/ttddbg_debugger_manager.cc:510-533 | A call that happened once is recorded once if and only if exactly one thread is alive there |
| `FullRuns.CallIsRecordedTwice` | ttddbg/src/ttddbg_debugger_manager.cc:510-529 | A recording of two threads, one living inside the life of the other, whose index pairs mix them: one call is recorded twice |
| `Tracer.SpanTiles` | ttddbg/src/ttddbg_debugger_manager.cc:519-529 | Replaying in chunks records what replaying in one go records |
| `Tracer.SpanCount` | ttddbg/src/ttddbg_tracer.cc:17-53 | A replayed span records an invocation if and only if its position lies in the span, as often as it occurs there |
| `Tracer.InvokedByCount` | ttddbg/src/ttddbg_tracer.cc:17-53 | The callbacks of a position record an invocation as often as it tells of one of the calls and returns there |
| `Tracer.FunctionTracer.CallCallback` | ttddbg/src/ttddbg_tracer.cc:17-53 | A call adds exactly one invocation of its target, a return exactly one of the function around the program counter, if that function is traced and its arguments or value can be rendered; every other callback leaves the list alone; keeps the order |
| `Tracer.FunctionTracer.RecordCall` | ttddbg/src/ttddbg_tracer.cc:132-240 | Adds the call in position order, or nothing if its arguments cannot be rendered |
| `Tracer.FunctionTracer.RecordRet` | ttddbg/src/ttddbg_tracer.cc:242-347 | Adds the return in position order, or nothing if its value cannot be rendered |
| `Tracer.FunctionTracer.TraceFunction` | ttddbg/src/ttddbg_tracer.cc:93-105 | Adds a function once |
| `Tracer.FunctionTracer.RemoveTrace` | ttddbg/src/ttddbg_tracer.cc:107-110 | Removing an entry ends the tracing of exactly that function |
| `Tracer.FunctionTracer.RemoveEvent` | ttddbg/src/ttddbg_tracer.cc:112-115 | Removes one entry and keeps the order |
| `Tracer.UntracedIsNotRecorded` | ttddbg/src/ttddbg_tracer.cc:17-53 | A function that is not traced is never recorded |
| `TracerProtocol.TailIsBounded` | ttddbg/src/ttddbg_tracer.cc:231-235 | In every interleaving of recorders, sorts and removals the list holds what was recorded and not removed, and at most as many trailing entries are out of order as recorders still owe a sort |
| `TracerProtocol.SortedWhenQuiet` | ttddbg/src/ttddbg_tracer.cc:338-342 | With no recorder between push and sort the list is sorted |
| `TracerProtocol.ListIsPushedMinusRemoved` | ttddbg/src/ttddbg_tracer.cc:112-115 | In terms of the actions alone: the list holds the pushed invocations but for one per removal, and is sorted if every recorder sorted after its last push |
| `TracerProtocol.StepKeepsInv` | ttddbg/src/ttddbg_tracer.cc:112-115 | Each critical section keeps that bound |
| `DequeProtocol.SafeIffAtMostOneConsumer` | ttddbg/src/ttddbg_debugger_manager.cc:207-219 | Check-then-pop under two locks never pops an empty queue, in all interleavings with any producers, if and only if there is at most one consumer |
| `DequeProtocol.FirstInFirstOut` | ttddbg/src/ttddbg_event_deque.cc:5-25 | Delivered plus queued events are the pushed events in order, in every interleaving that popped no empty queue |
| `DequeProtocol.OneEventPerPop` | ttddbg/src/ttddbg_event_deque.cc:12-18 | Each pop that finds something delivers one event, and nothing else does |
| `DequeProtocol.ReadyIffFoundLast` | ttddbg/src/ttddbg_debugger_manager.cc:207-219 | A consumer goes on to pop if and only if its own last check found something |
| `DequeProtocol.OneConsumerIsSafe` | ttddbg/src/ttddbg_debugger_manager.cc:207-219 | A single consumer never pops an empty queue |
| `DequeProtocol.TwoConsumersBreak` | ttddbg/src/ttddbg_debugger_manager.cc:207-219 | Two consumers can: an interleaving in which the second pop finds nothing |
| `Events.EventDeque.PushEvent` | ttddbg/src/ttddbg_event_deque.cc:5-9 | Appends |
| `Events.EventDeque.PopEvent` | ttddbg/src/ttddbg_event_deque.cc:12-18 | Takes the oldest event and leaves the log of all events as it was |
| `Timelines.MirrorHolds` | ttddbg/src/ttddbg_position_chooser.cc:27-138 | Over any adds and deletes, duplicate names included and whatever was stored before, every stored name but the empty one is in memory and stored with its largest position there; right after an add every name is stored; the list is sorted |
| `Timelines.NamelessMirror` | ttddbg/src/ttddbg_position_chooser.cc:89-168 | The empty name is mirrored if and only if no nameless position was left from an earlier session or one was added in this one |
| `Timelines.NamelessIsNotReloaded` | ttddbg/src/ttddbg_position_chooser.cc:89-168 | A run from an empty store that adds a nameless position: it is stored, and the next session loads nothing |
| `Timelines.ReloadIff` | ttddbg/src/ttddbg_position_chooser.cc:27-175 | For every run: the next session loads the same entries if and only if their names are distinct and not empty and none was deleted under an equal name since the last addition |
| `Timelines.StoredUnlessKilled` | ttddbg/src/ttddbg_position_chooser.cc:109-138 | In every state of every run an entry in memory is stored if and only if its name was not deleted since the last addition |
| `Timelines.RoundTripIff` | ttddbg/src/ttddbg_position_chooser.cc:125-168 | Reloading a mirrored timeline gives it back if and only if its names are distinct, non-empty and all stored |
| `Timelines.RoundTrip` | ttddbg/src/ttddbg_position_chooser.cc:27-175 | A timeline that survives a reload by that condition shows the same column of positions |
| `Timelines.DistinctNamesSurvive` | ttddbg/src/ttddbg_position_chooser.cc:27-175 | With names distinct at all times and none empty at the end, the next session loads the same entries, whatever was stored before |
| `Timelines.DeleteKeepsStoredIff` | ttddbg/src/ttddbg_position_chooser.cc:109-122 | Deleting an entry leaves everything else stored if and only if no other entry has its name |
| `Timelines.TwinIsLostUntilNextAdd` | ttddbg/src/ttddbg_position_chooser.cc:109-138 | An entry whose twin was deleted is in memory but not found by a session loaded then; the next addition stores it again |
| `Timelines.AddTwiceDeleteOnce` | ttddbg/src/ttddbg_position_chooser.cc:27-122 | A run from an empty store that ends so: a name added twice and deleted once |
| `Timelines.LoadMirrors` | ttddbg/src/ttddbg_position_chooser.cc:141-168 | Right after loading, memory mirrors the store for every name, the empty one if and only if no nameless position is stored |
| `Timelines.DistinctNamesStayStored` | ttddbg/src/ttddbg_position_chooser.cc:109-138 | As long as names stay distinct, everything in memory is stored at all times |
| `Timelines.AddKeepsMirror` | ttddbg/src/ttddbg_position_chooser.cc:27-35 | Adding keeps the mirror of each name |
| `Timelines.AddStoresAll` | ttddbg/src/ttddbg_position_chooser.cc:27-35 | After adding, every name in memory is stored |
| `Timelines.DeleteKeepsMirror` | ttddbg/src/ttddbg_position_chooser.cc:109-122 | Deleting keeps the mirror of each name, although it removes the node of a name that may occur again |
| `Timelines.SavedValue` | ttddbg/src/ttddbg_position_chooser.cc:125-138 | Saving leaves at each name the largest of its positions, and the nodes of other names alone |
| `Timelines.OtherNodesStay` | ttddbg/src/ttddbg_position_chooser.cc:109-138 | Over any edits the nodes whose names lack the prefix stay as they are |
| `Timelines.PositionChooser.AddNewPosition` | ttddbg/src/ttddbg_position_chooser.cc:27-35 | Takes the add step |
| `Timelines.PositionChooser.Del` | ttddbg/src/ttddbg_position_chooser.cc:109-122 | Takes the delete step; out of range it changes nothing |
| `Timelines.PositionChooser.SavePositions` | ttddbg/src/ttddbg_position_chooser.cc:125-138 | Sets one node per entry, in order |
| `Timelines.PositionChooser.LoadPositions` | ttddbg/src/ttddbg_position_chooser.cc:141-175 | Reads each named node with the prefix and a value once, in any node order |
| `Timelines.PositionChooser.Populate` | ttddbg/src/ttddbg_debugger_manager.cc:616-663 | Leaves a non-empty timeline alone; otherwise yields all entries of the five event lists, sorted and stored, and keeps the mirror |
| `Sorting.SortedPermutationsAgree` | ttddbg/src/ttddbg_position_chooser.cc:171-175 | Two sorted arrangements of the same entries differ at most in the order of equal positions |
| `Sorting.Sort` | ttddbg/src/ttddbg_position_chooser.cc:171-175 | A sorted permutation |
| `PositionText.TextRoundTrip` | ttddbg/src/ttddbg_position_chooser.cc:62-67 | Parsing a printed position gives it back if and only if both numbers are below 2^31 |
| `PositionText.RefusedIffNoColon` | ttddbg/src/ttddbg_debugger_manager.cc:593-602 | An answer is refused if and only if it has no colon |
| `PositionText.MissingMinor` | ttddbg/src/ttddbg_debugger_manager.cc:599-610 | An answer that ends in its only colon is not refused: its minor counts as 0 |
| `PositionText.FiveWithoutMinor` | ttddbg/src/ttddbg_debugger_manager.cc:599-610 | So "5:" names position {5, 0} |
| `PositionText.StrtolIsZero` | ttddbg/src/ttddbg_debugger_manager.cc:607-608 | A number counts as 0 if and only if no digit but zeros precedes its first non-digit: it is empty, unreadable or a zero |
| `PositionText.NoJumpIffZeros` | ttddbg/src/ttddbg_debugger_manager.cc:593-610 | An answer makes no jump if and only if it has a colon and both its parts read as zero |
| `PositionText.ColonIsNoJump` | ttddbg/src/ttddbg_debugger_manager.cc:593-610 | So a colon alone makes no jump |
| `PositionText.ParsePrinted` | ttddbg/src/ttddbg_debugger_manager.cc:593-610 | What parsing makes of any printed position: both numbers cut to 32 bits and held at the largest long |
| `PositionText.PrintedColon` | ttddbg/src/ttddbg_debugger_manager.cc:593-605 | A printed position is split at its colon |
| `PositionText.StrtolOfHex` | ttddbg/src/ttddbg_debugger_manager.cc:607-608 | Base-0 conversion of a printed number |
| `PositionText.StrtolOfNumeral` | ttddbg/src/ttddbg_debugger_manager.cc:607-608 | Base-0 conversion of a number in any form: after any blanks and sign, decimal, octal after 0 or hexadecimal after 0x or 0X, in capitals or not, and whatever follows its digits |
| `PositionText.ParseParts` | ttddbg/src/ttddbg_debugger_manager.cc:593-610 | An answer is read part by part, around its first colon |
| `PositionText.ParseDecimal` | ttddbg/src/ttddbg_debugger_manager.cc:593-610 | A decimal answer names the position it says, up to the largest long |
| `PositionText.ParseOctal` | ttddbg/src/ttddbg_debugger_manager.cc:593-610 | So does an octal one |
| `PositionText.PrintShape` | ttddbg/src/ttddbg_position_chooser.cc:62-67 | Positions are printed with 0x, in capitals and without leading zeros |
| `CallConv.StackArgOffset` | ttddbg/src/ttddbg_callconv.cc:14-23 | The sum of the sizes of the stack arguments before this one, in 64 bits |
| `CallConv.OffsetsSplit` | ttddbg/src/ttddbg_callconv.cc:14-23 | Offsets split additively |
| `CallConv.SlotsTile` | ttddbg/src/ttddbg_callconv.cc:14-23 | Every byte of the argument area lies in exactly one slot |
| `CallConv.X86GetIntArg` | ttddbg/src/ttddbg_callconv.cc:25-52 | ecx and edx for the first two arguments of a fastcall function, -1 for its others and for unknown conventions, the stack for the rest |
| `CallConv.X64GetIntArg` | ttddbg/src/ttddbg_callconv.cc:54-76 | rcx, rdx, r8 and r9 for the first four arguments of a fastcall function, the stack for its others, -1 for other conventions |
| `CallConv.X86ArgumentReadsBack` | ttddbg/src/ttddbg_callconv.cc:39-48 | What the x86 reader returns for an argument the caller pushed: the argument if it has 4 bytes, its low 4 bytes if it has more; if it has fewer, its low bytes are right, and the whole is if and only if the bytes that follow are zero |
| `CallConv.X64ArgumentReadsBack` | ttddbg/src/ttddbg_callconv.cc:68-73 | The same for the x64 reader and 8 bytes, from the fifth argument on |
| `CallConv.RegisterArgumentsReadBack` | ttddbg/src/ttddbg_callconv.cc:30-66 | Arguments passed in registers are read back: the first two of an x86 fastcall function, the first four on x64 |
| `CallConv.ArgumentsKeepApart` | ttddbg/src/ttddbg_callconv.cc:14-23 | Writing one argument leaves the others readable |
| `CallConv.CopyArgumentAddress` | ttddbg/src/ttddbg_tracer.cc:381-451 | What ends up on the clipboard: the contents of a pointer argument, an address on the stack, an empty text, or nothing after a warning; and exactly when it warns and when the text is empty |
| `CallConv.CopiedPointer` | ttddbg/src/ttddbg_tracer.cc:403-418 | The low 32 bits of a pointer's contents are copied; one on the stack is copied whole on x86, on x64 if and only if its upper 4 bytes are zero |
| `CallConv.OfferedAddress` | ttddbg/src/ttddbg_tracer.cc:420-446 | The address copied is the one the reader uses if and only if the convention makes it read the stack and the address fits 32 bits |
| `CallConv.X86OffersTheArgument` | ttddbg/src/ttddbg_tracer.cc:420-434 | The address offered on x86 is where the caller pushed the argument, also for fastcall arguments |
| `CallConv.X64OffersTheArgument` | ttddbg/src/ttddbg_tracer.cc:435-446 | So is the one offered on x64, below 2^32 |
| `MemoryText.ReadStringAt` | ttddbg/src/ttddbg_callconv.cc:99-111 | With a terminator the loop ends and returns the rendering of the text before the first zero |
| `MemoryText.ReadWideStringAt` | ttddbg/src/ttddbg_callconv.cc:113-125 | The same for 16-bit units |
| `MemoryText.TextExists` | ttddbg/src/ttddbg_callconv.cc:99-111 | Any terminator determines a text before the first one |
| `MemoryText.WideTextExists` | ttddbg/src/ttddbg_callconv.cc:113-125 | So does any zero unit at an even distance, for 16-bit units |
| `MemoryText.TextIsDetermined` | ttddbg/src/ttddbg_callconv.cc:99-111 | That text is unique |
| `MemoryText.EncodingsAgree` | ttddbg/src/ttddbg_callconv.cc:99-147 | Narrow and wide encodings of one 7-bit text are read identically |
| `MemoryText.RenderIsEscape` | ttddbg/src/ttddbg_callconv.cc:127-147 | On units below 256 the readers return the escaped text |
| `MemoryText.UnitInContext` | ttddbg/src/ttddbg_callconv.cc:127-147 | Each unit contributes its own text wherever it stands: an escape, its character, or beyond 255 what the wide format makes of it |
| `MemoryText.HighByteInContext` | ttddbg/src/ttddbg_callconv.cc:99-111 | A byte from 128 on counts as the wide character with the same sign, not as a character of its own |
| `MemoryText.WrittenTextIsFound` | ttddbg/src/ttddbg_callconv.cc:113-125 | A text written to memory as 16-bit units and a zero is the text the wide reader finds |
| `MemoryText.WrittenBytesAreFound` | ttddbg/src/ttddbg_callconv.cc:99-111 | A text written as bytes and a zero is the text the narrow reader finds |
| `MemoryText.EscapeIsInvertible` | ttddbg/src/ttddbg_callconv.cc:127-147 | Unescaping undoes escaping if and only if the text has no backslash directly before n, r or t |

## Left out

- The IDA SDK: choosers, dialogs, rebasing, demangling and type queries. Types appear as lists of argument sizes, rendered argument text as a function of function and position.
- The TTD engine beyond the cursor, its lists and its callback; `TTD.hpp` is not part of this model.
- File checks, magic bytes and engine start-up in `onStartProcess`, logging, wait boxes.
- User cancellation of a full run: it leaves both loops early and then restores the cursor as usual.
- A second session on one manager: `onStartProcess` does not clear the queue, so a run begins with an empty one.
- Manager.DebuggerManager.OnStartProcess: does not install the tracer's callbacks, which the cursor has from its creation, before any replay, and takes the engine's five event lists as named positions.
- Manager.DebuggerManager.OnExitProcess: does not belong to the commands of a run, because a session ends with it.
- Cursors.Cursor.ReplayBackward: does not say what a backward replay calls back for, about which the source says nothing; whatever the tracer records then is left open.
- Tracer.FunctionTracer.TraceFunction: does not model two threads tracing one function at once; its test and its insertion are separate critical sections, reached from the user interface only.
- MemoryText.ReadStringAt: does not model the overflow of the 32-bit index for texts of 2^31 bytes, nor memory the recording does not have.
- CallConv.X86GetIntArg: does not claim conformance to the real calling conventions; offsets have no alignment and x64 offsets no shadow space, as in the source.
- Process id, `handled` flags and event addresses other than those of breakpoints and modules, which are constants or repeated.
- Floating-point arguments, register copying, register tables, callback dispatch, clipboard access, string conversion and exception names: no state and no property beyond the code itself.
