# ocldbg, modelled and proved in Dafny

ocldbg is a debugger for OpenCL kernels. This project models the parts of it
that carry logic of their own, in the arithmetic and with the branches of the
C++ sources, and proves what those parts promise. `dfyconfig.toml` lists its
files.

## What is modelled

**The Oclgrind remote-debug protocol**, as one system of two processes.

- `Types`, `Text`: machine integers; decimal and hexadecimal notation, word
  splitting and number extraction as the C++ string and stream functions do
  them.
- `Channel`: newline framing over a byte stream, and the `LineChannel` class.
- `Plugin`: the interpreter side. `State` is the plugin's fields, `Handle` what
  a command does, `Observe` what an interpreter event does; the `DebugPlugin`
  class is proved against them.
- `Backend`: the debugger side. `Begin` says what an operation sends, `Deliver`
  what the answer leads to; the `OclgrindBackend` class is proved against them.
- `Session`: both together, one whole operation at a time (`Perform`, `Run`).
- `Agreement`: what every operation keeps.
- `Tables`: which breakpoints there are, read off the user's operations alone.
- `Endpoints`: the two classes as the two sides, and the plugin's hooks called
  over a whole trace.
- `Lockstep`: the two processes running concurrently. A `System` holds both
  sides, and for each direction the bytes not yet written, on the wire, and
  buffered. Each `Move` writes or reads any number of bytes, takes a line,
  executes one interpreter event, or sees the end of a stream; moves interleave
  freely.
- `Newlines`: which expressions keep the two processes in step.
- `Halts`, `Steps`, `Driver`, `Answers`: whole runs over an arbitrary instruction
  trace, where steps stop, the scripted session, and what the answers mean end to
  end.

Oclgrind itself is a parameter. Its trace is an arbitrary finite sequence of
kernel begins, kernel ends and instructions; its answers (which work-item a
switch reaches, how an expression prints, what memory holds) are arbitrary
functions of the number of the command. Two things are assumed of it: at a stop
the current work-item is the one that halted, and a switch that succeeds makes
its target current.

**NDRange geometry** (`NdRange`, `Tracker`): group counts, work-group boxes,
the maps between global, group and local ids, and the table of threads, with
64-bit wrap-around written out.

**Debug information** (`Leb128`, `LineTable`, `Scopes`, `ScopeOrder`): the LEB128
decoders on 64-bit vectors, the search from source line to addresses, and the walk
that collects the variables in scope, with the places it visits.

**The DAP server** (`DapFraming`, `DapServer`, `DapHistory`): framing, numbering,
one response a request, the thread table and the references that lead back to it,
and an account of everything a session says and asks for. JSON text is
uninterpreted: an arbitrary parser maps payloads to requests.

**The CPU backend's breakpoints** (`CpuBreakpoints`): two modules that number
breakpoints independently and must agree.

## Main results

1. `Lockstep.LockstepHolds`, `Lockstep.Finish`: the concurrent byte-level system
   refines the one-operation-at-a-time system, never deadlocks, and ends every
   operation under every schedule.
2. `Driver.RunOclgrindSession`: a session reports exactly the first hits of its
   line, one for each kernel invocation and work-item, up to its limit, and so do
   the two processes under every schedule.
3. `Halts.StopsOverRuns`, `Halts.RunOnHaltsFirst`: under any mix of operations
   every halt is reported, at the first event that deserves one, and no work-item
   stops twice running on one line of one kernel invocation.
   `Steps.StepStopsInPlaceIff`: exactly when a step stops in its own kernel
   invocation, and where.
4. `Agreement.TablesAgreeOverRuns`: at every halt of every run the two breakpoint
   tables agree, and the work-item the debugger was told of is the plugin's
   current one. `Tables.ArmedIsOutstanding`: those tables are the breakpoints the
   user has set and not removed. `Endpoints.ClassFollowsSystem`, `Endpoints.PluginFollowsSession`,
   `Endpoints.RunHost`: the backend class and the plugin class, its hooks called
   over any trace, play the two sides, each saying exactly the bytes the other
   reads.
5. `NdRange.BoxesPartitionRange`, `NdRange.CoverIff`, `NdRange.ItemsAddUp`: the
   boxes partition the global range, exactly when they cover it, and exactly when
   their counts add up to its size.
6. `Leb128.UnsignedRoundTrip`, `Leb128.SignedRoundTrip`, `LineTable.SourceToPcs`,
   `ScopeOrder.VariablesInScope`: the debug-information algorithms against
   independent definitions.
7. `DapServer.WholeSession`, `DapServer.ChainShowsOwnItem`,
   `DapHistory.SessionIsHistory`: DAP streams, numbers and references, and every
   message and backend call of a session from its requests and stops alone.
8. `CpuBreakpoints.IdSpacesAgree`: exactly when the CPU backend and the debugger
   context below it hold the same breakpoints for ever after their one launch;
   `CpuBreakpoints.ResolvedStays`: a resolved one stays as it is until removed.

## Promises that hold under a condition

- An expression that will be sent must be one line. `Newlines.EvaluateKeepsStepIff`
  is the exact condition for evaluating to keep the two processes in step;
  `Newlines.RestIsLeftBehind` says what happens for every other name: the rest of
  it lies in the stream as commands of its own. `Newlines.NewlineBreaksLockstep`
  is a family of such names, after which the debugger believes itself halted
  while the program runs.
- On the plugin alone, `break` with a used id can leave a line armed that no id
  uses: `Answers.BreakKeepsLinesIff`. The debugger never reuses an id, so it
  does not happen in the whole system.
- A step stops in its own kernel invocation exactly when its work-item has
  somewhere to stop before the kernel is over: `Steps.StepStopsInPlaceIff`.
  Otherwise the plugin goes on stepping whatever has the same index in a later
  kernel: `Steps.StepLeavesKernel` is such a run, ending at other coordinates.
- Ceiling group counts need the global plus the local size to fit 64 bits:
  `NdRange.CountIsCeilingIff`. The boxes cover the range exactly then, or when the
  range is empty: `NdRange.CoverIff`.
- Item counts are 64-bit too: under that condition they add up to the size of the
  range exactly when the largest box can be counted in 64 bits,
  `NdRange.ItemsAddUp`. One group of 2^32 by 2^32 work-items counts none:
  `NdRange.OneHugeBox`.
- The nearest later line is not found if it is 2^32 - 1, which the scan uses to
  mean none: `LineTable.EmptyIff`.
- Whatever follows the launch, the CPU backend and the context below it hold the
  same ids and files exactly when no breakpoint was removed before it:
  `CpuBreakpoints.IdSpacesAgree`. Right after the launch they still do if only
  those set last were removed, `CpuBreakpoints.AgreeAfterLaunchIff`; the next one
  set shows the difference, `CpuBreakpoints.SettingShowsIff`.
  `CpuBreakpoints.RemovalDiverges` is a run after which a breakpoint removed above
  stays in place below.
- With the Oclgrind backend a DAP thread shows its own variables exactly when its
  work-item is the one attended to: `DapServer.OclgrindShowsOwnIff`. After
  another is selected, thread 1 shows that one's: `DapServer.SelectionShowsThrough`.
- A DAP stream is recovered whole exactly when no payload is empty:
  `DapFraming.RecoveredIffNonEmpty`. A response carries its request's own number
  exactly when that fits 32 bits: `DapServer.OwnSeqIff`. Messages are numbered
  1, 2, 3, ... exactly while there are fewer than 2^31: `DapServer.SessionIsNumbered`.
- The header comment of `OclgrindProtocol.h` lists `select` and `delete` as
  answered by `ok` alone; the code also answers `err`, and the model follows
  the code.

## Model

| member | source | states |
|---|---|---|
| `Text.MessageWords` | ocldbg/backends/oclgrind/plugin/DebugPlugin.cpp:52-60 | a command printed from 64-bit numbers splits back into its verb and words that read back to the same numbers, and is one line |
| `Text.MessageNumbers` | ocldbg/backends/oclgrind/OclgrindBackend.cpp:115-134 | a printed reply or event gives back its first word and exactly its numbers |
| `Text.SplitWords` | ocldbg/backends/oclgrind/plugin/DebugPlugin.cpp:52-60 | the extraction loop returns the white-space separated words |
| `Text.ParseNumbers` | ocldbg/backends/oclgrind/OclgrindBackend.cpp:115-127 | skips words, then collects numbers up to the first failed or overflowing extraction |
| `Text.ToHex` | ocldbg/backends/oclgrind/plugin/DebugPlugin.cpp:67-74 | two digits a byte, high half first |
| `Text.DecodeHex` | ocldbg/backends/oclgrind/OclgrindBackend.cpp:140-147 | the first min(length, capacity) pairs, each as the library conversion reads it, or a failure at the first pair without a digit |
| `Text.UnhexOfHex` | ocldbg/backends/oclgrind/plugin/DebugPlugin.cpp:67-74 | decoding an encoding gives the first bytes back |
| `Text.StrToUlIs` | ocldbg/backends/oclgrind/plugin/DebugPlugin.cpp:200-233 | the number of a word: sign, digits and whatever follows, saturating, with a minus complemented |
| `Text.TakeNumberIs` | ocldbg/backends/oclgrind/OclgrindBackend.cpp:115-127 | one extraction: blanks, sign and digits give the number and what follows, or nothing when it does not fit |
| `Channel.LineChannel.Send` | ocldbg/backends/oclgrind/OclgrindProtocol.h:80-95 | whatever sizes each write takes, exactly the line and a newline leave; a peer that goes away takes the bytes it still could, and the line counts as unsent |
| `Channel.LineChannel.Recv` | ocldbg/backends/oclgrind/OclgrindProtocol.h:99-118 | whatever sizes each read takes, the first line of buffer and wire is returned and the rest is kept; none is returned only at the end of the stream |
| `Channel.LineIsStable` | ocldbg/backends/oclgrind/OclgrindProtocol.h:103-117 | bytes arriving later change neither the line delivered nor what follows it |
| `Channel.FramingRoundTrip` | ocldbg/backends/oclgrind/OclgrindProtocol.h:80-118 | the receiver gets exactly the lines sent, in order, and an unterminated tail is never delivered |
| `Channel.FramingConserves` | ocldbg/backends/oclgrind/OclgrindProtocol.h:99-118 | delivered lines plus the tail are every byte of the stream |
| `Channel.SentAsOneLineIff` | ocldbg/backends/oclgrind/OclgrindProtocol.h:80-95 | a string is received as one line exactly when it holds no newline |
| `Plugin.DebugPlugin.constructor` | ocldbg/backends/oclgrind/plugin/DebugPlugin.cpp:78-86 | with a debugger there, announces itself and serves it before the host runs; without one does nothing |
| `Plugin.DebugPlugin.OnKernelBegin` | ocldbg/backends/oclgrind/plugin/DebugPlugin.cpp:88-91 | a new invocation with no remembered halts |
| `Plugin.DebugPlugin.OnKernelEnd` | ocldbg/backends/oclgrind/plugin/DebugPlugin.cpp:93-96 | no invocation and no remembered halts |
| `Plugin.DebugPlugin.OnInstruction` | ocldbg/backends/oclgrind/plugin/DebugPlugin.cpp:98-113 | with the channel closed nothing halts; otherwise a halt remembers the line, reports the stop and serves until resumed or the peer is gone |
| `Plugin.DebugPlugin.Halts` | ocldbg/backends/oclgrind/plugin/DebugPlugin.cpp:115-131 | decides a halt by mode, armed lines, stepped item, depth and the item's last line |
| `Plugin.DebugPlugin.ServeDebugger` | ocldbg/backends/oclgrind/plugin/DebugPlugin.cpp:149-163 | commands are handled in order, one reply each, until one resumes, the stream ends or a reply cannot be sent |
| `Plugin.DebugPlugin.HandleCommand` | ocldbg/backends/oclgrind/plugin/DebugPlugin.cpp:165-179 | one command has one effect and either one reply line or a resume |
| `Plugin.DebugPlugin.HandleExecution` | ocldbg/backends/oclgrind/plugin/DebugPlugin.cpp:181-198 | continue always resumes; a step resumes from the active item's index and depth or is refused without one |
| `Plugin.DebugPlugin.HandleBreakpoint` | ocldbg/backends/oclgrind/plugin/DebugPlugin.cpp:200-234 | break arms, delete disarms a line when its last id goes, and each error leaves the tables alone |
| `Plugin.DebugPlugin.HandleQuery` | ocldbg/backends/oclgrind/plugin/DebugPlugin.cpp:236-280 | select, print and read answer from the active item and memory; anything else is unsupported |
| `Plugin.DebugPlugin.SelectWorkItem` | ocldbg/backends/oclgrind/plugin/DebugPlugin.cpp:318-330 | succeeds only in a running kernel and inside its range, and then the target is current |
| `Plugin.DebugPlugin.ReadExpression` | ocldbg/backends/oclgrind/plugin/DebugPlugin.cpp:282-304 | the text captured for the work-item on one line, or nothing for an unknown name |
| `Backend.OclgrindBackend.LaunchSession` | ocldbg/backends/oclgrind/OclgrindBackend.cpp:203-219 | after a good handshake the backend is halted and registers its breakpoints; after a bad one it is detached |
| `Backend.OclgrindBackend.RegisterAll` | ocldbg/backends/oclgrind/OclgrindBackend.cpp:211-217 | one break request a breakpoint, in id order, replies ignored |
| `Backend.OclgrindBackend.SetLine` | ocldbg/backends/oclgrind/OclgrindBackend.cpp:239-257 | the whole exchange of a breakpoint set, with its undoing when refused |
| `Backend.OclgrindBackend.RemoveId` | ocldbg/backends/oclgrind/OclgrindBackend.cpp:259-267 | the whole exchange of a removal, silent for an unknown id |
| `Backend.OclgrindBackend.ResumeSession` | ocldbg/backends/oclgrind/OclgrindBackend.cpp:291-330 | halted again exactly when a full stop line comes, closed when the stream ends |
| `Backend.OclgrindBackend.StepOne` | ocldbg/backends/oclgrind/OclgrindBackend.cpp:277-289 | a step is sent only after a successful select |
| `Backend.OclgrindBackend.SelectWorkItem` | ocldbg/backends/oclgrind/OclgrindBackend.cpp:332-359 | the selected item has the reply's coordinates, or nothing changes |
| `Backend.OclgrindBackend.ReadGlobalMemory` | ocldbg/backends/oclgrind/OclgrindBackend.cpp:365-384 | the decoded bytes of a data reply |
| `Backend.OclgrindBackend.EvaluateName` | ocldbg/backends/oclgrind/OclgrindBackend.cpp:390-413 | the text of a value reply |
| `Agreement.AnswersOneLine` | ocldbg/backends/oclgrind/plugin/DebugPlugin.cpp:282-304 | every reply and event fits on one line, whatever Oclgrind printed |
| `Agreement.WireFormat` | ocldbg/backends/oclgrind/OclgrindProtocol.h:8-24 | every command and the stop event as words and decimal numbers, each after one blank |
| `Agreement.StopFieldsAreRead` | ocldbg/backends/oclgrind/OclgrindBackend.cpp:306-324 | which number of a stop line is which coordinate, the line cut to 32 bits |
| `Agreement.SelectFieldsAreRead` | ocldbg/backends/oclgrind/OclgrindBackend.cpp:341-357 | which number of a select's answer is which coordinate |
| `Agreement.StopIsRead` | ocldbg/backends/oclgrind/plugin/DebugPlugin.cpp:133-143 | the debugger learns from a stop line exactly the item's three coordinates and its line |
| `Agreement.SetIsSound` | ocldbg/backends/oclgrind/OclgrindBackend.cpp:239-257 | while halted, a breakpoint set is accepted under a fresh id and both tables gain it |
| `Agreement.RemoveIsSound` | ocldbg/backends/oclgrind/plugin/DebugPlugin.cpp:215-233 | while halted, a removal reaches the plugin and disarms the line only if no other id uses it |
| `Agreement.SelectIsSound` | ocldbg/backends/oclgrind/plugin/DebugPlugin.cpp:318-330 | a select succeeds exactly when a kernel runs, the coordinates are inside it and Oclgrind, asked for those coordinates, reaches a work-item, which then is active with its index, depth and ids; otherwise nothing changes |
| `Agreement.StepIsSound` | ocldbg/backends/oclgrind/OclgrindBackend.cpp:277-289 | a step sent after a select is never refused and runs from the selected item |
| `Agreement.RegistersAll` | ocldbg/backends/oclgrind/OclgrindBackend.cpp:211-217 | registration leaves the plugin with exactly the debugger's table |
| `Agreement.LaunchIsSound` | ocldbg/backends/oclgrind/OclgrindBackend.cpp:203-219 | launching ends halted with both tables equal |
| `Agreement.OperationKeepsAgreement` | ocldbg/backends/oclgrind/OclgrindBackend.cpp:172-384 | every operation goes through without a command refused out of turn, and keeps both ends in agreement |
| `Agreement.TablesAgreeOverRuns` | ocldbg/backends/oclgrind/plugin/DebugPlugin.cpp:200-234 | at every halt of every run the two breakpoint tables are equal, the armed lines are exactly those in use, and the work-item the debugger was last told of is the plugin's current one |
| `Tables.TableIsOutstanding` | ocldbg/backends/oclgrind/OclgrindBackend.cpp:239-267 | over every run the debugger's table is exactly the breakpoints set and not removed, halted or not, the k-th set having id k |
| `Tables.ArmedIsOutstanding` | ocldbg/backends/oclgrind/plugin/DebugPlugin.cpp:200-234 | at every halt the plugin's table is the same, and armed are exactly the lines of those |
| `Tables.SetIsAnswered` | ocldbg/backends/oclgrind/OclgrindBackend.cpp:239-257 | setting a breakpoint answers its id, and 0 for a line of 0 |
| `Endpoints.ClassFollowsSystem` | ocldbg/backends/oclgrind/OclgrindBackend.cpp:136-138 | the backend class, reading the plugin's answers off its channel, sends the operation's commands, ends as the two-sided system does and leaves nothing unread |
| `Endpoints.PluginFollowsSystem` | ocldbg/backends/oclgrind/plugin/DebugPlugin.cpp:149-163 | the plugin class, serving and interpreting on those commands, ends as the two-sided system does and says exactly the bytes the backend class reads, whatever comes after |
| `Endpoints.PluginFollowsSession` | ocldbg/backends/oclgrind/plugin/DebugPlugin.cpp:88-163 | fed everything the debugger sends over any operations, the host ends as the run does and says everything the debugger reads |
| `Endpoints.HostFollowsRun` | ocldbg/backends/oclgrind/plugin/DebugPlugin.cpp:78-163 | the same from the launch on |
| `Endpoints.RunHost` | ocldbg/backends/oclgrind/plugin/DebugPlugin.cpp:78-113 | the plugin's constructor and hooks, called over any trace on any bytes, do what the two rows above speak of, and let the program end once the debugger is gone |
| `Lockstep.MoveKeeps` | ocldbg/backends/oclgrind/OclgrindProtocol.h:80-118 | no write, read, command, event or end of stream changes where the operation in hand will end |
| `Lockstep.BeginKeeps` | ocldbg/backends/oclgrind/OclgrindBackend.cpp:172-384 | starting any lawful operation starts it on its way to what the simple system says |
| `Lockstep.NeverStuck` | ocldbg/backends/oclgrind/OclgrindProtocol.h:8-24 | while an operation is in hand some process can move: the two sides never both wait |
| `Lockstep.MoveComesCloser` | ocldbg/backends/oclgrind/OclgrindProtocol.h:80-118 | every move makes progress in a well-founded order |
| `Lockstep.Finish` | ocldbg/backends/oclgrind/OclgrindProtocol.h:8-24 | any scheduler drives the operation in hand to its end |
| `Lockstep.LockstepHolds` | ocldbg/backends/oclgrind/OclgrindProtocol.h:8-24 | in every reachable state between operations both streams and buffers are empty, halted means the plugin is serving, and states and result are those of the simple system; at most one line is ever under way |
| `Lockstep.CanRun` | ocldbg/backends/oclgrind/OclgrindProtocol.h:8-24 | every lawful list of operations is carried out to its end by some schedule |
| `Lockstep.ScheduleDoesNotMatter` | ocldbg/backends/oclgrind/OclgrindProtocol.h:80-118 | the same operations end in the same state and result under any two schedules |
| `Lockstep.NeverHaltsAgain` | ocldbg/backends/oclgrind/OclgrindBackend.cpp:221-237 | after detach or the program's end nothing halts, whatever is tried |
| `Newlines.EvaluateKeepsStepIff` | ocldbg/backends/oclgrind/OclgrindBackend.cpp:390-413 | evaluating an expression keeps the two processes in step, under every schedule and whatever follows, exactly when one that will be sent is one line |
| `Newlines.RestIsLeftBehind` | ocldbg/backends/oclgrind/OclgrindBackend.cpp:396-399 | for every name with a newline some schedule ends the evaluation with the rest of the name still under way as commands |
| `Newlines.NewlineBreaksLockstep` | ocldbg/backends/oclgrind/plugin/DebugPlugin.cpp:181-187 | when that rest is a continue, the program runs while the debugger believes it halted |
| `Halts.RunOnHaltsFirst` | ocldbg/backends/oclgrind/plugin/DebugPlugin.cpp:98-131 | resuming halts at the first event that deserves it, and runs to the end only if none does |
| `Halts.StopsOverRuns` | ocldbg/backends/oclgrind/OclgrindBackend.cpp:291-330 | over any run the stop callback is told every halt, in order and in full, and no work-item repeats a line running within an invocation |
| `Halts.OperationIsTold` | ocldbg/backends/oclgrind/OclgrindBackend.cpp:326-329 | each operation adds to what was told exactly the halts it caused |
| `Steps.StepStopsAtIndex` | ocldbg/backends/oclgrind/plugin/DebugPlugin.cpp:122-130 | a stop after a step is at an instruction of the stepped index, for a step over no deeper than it began; an item that cannot be selected moves nothing |
| `Steps.StepStopsInPlaceIff` | ocldbg/backends/oclgrind/plugin/DebugPlugin.cpp:88-131 | a step stops in its own kernel invocation exactly when an instruction to stop at comes before the kernel is over, then at the first one, and in the selected work-item when no other has its index |
| `Steps.StepLeavesKernel` | ocldbg/backends/oclgrind/plugin/DebugPlugin.cpp:88-96 | break, resume and step ending in another kernel's work-item, since the ends of kernels leave the stepping mode on |
| `Driver.OneHitPerPair` | ocldbg/backends/oclgrind/plugin/DebugPlugin.cpp:88-131 | every execution of the line belongs to exactly one hit, of its own work-item and kernel invocation |
| `Driver.RunOnStaysOnTrack` | ocldbg/backends/oclgrind/plugin/DebugPlugin.cpp:98-131 | continuing with one line armed halts at exactly the hits |
| `Driver.RunOclgrindSession` | ocldbg/backends/oclgrind/OclgrindSession.cpp:36-66 | reports the first min(n, k) hits (all k when n is 0) in order of execution, counts them, prints at each the expressions in the work-item that hit, and ends with the program run to completion; so do the two processes under every schedule of its operations, and there is one |
| `Driver.EvaluateAll` | ocldbg/backends/oclgrind/OclgrindSession.cpp:22-32 | each requested expression is evaluated to what Oclgrind then prints for it in the work-item that stopped, changing neither the debugger nor the halts |
| `Answers.ReadReturnsMemory` | ocldbg/backends/oclgrind/OclgrindBackend.cpp:365-384 | reading while halted returns the very bytes of memory, or none for an invalid range |
| `Answers.EvaluateReturnsText` | ocldbg/backends/oclgrind/OclgrindBackend.cpp:390-413 | evaluating returns what Oclgrind prints, on one line, for the very work-item the debugger last stopped at or selected, or nothing if it does not resolve |
| `Answers.ErrIffRefused` | ocldbg/backends/oclgrind/plugin/DebugPlugin.cpp:165-280 | any command whatever is answered err exactly when it is empty, unknown or lacks what it needs, and then has changed nothing |
| `Answers.StepModeIff` | ocldbg/backends/oclgrind/plugin/DebugPlugin.cpp:181-198 | a step that is carried out steps over exactly if its second word is over |
| `Answers.WhileNotHalted` | ocldbg/backends/oclgrind/OclgrindBackend.cpp:239-384 | the result of every operation while the program is not halted, and that the host does not move |
| `Answers.WrongReply` | ocldbg/backends/oclgrind/OclgrindBackend.cpp:203-413 | what each operation makes of a reply it did not hope for, or of none |
| `Answers.BreakKeepsLinesIff` | ocldbg/backends/oclgrind/plugin/DebugPlugin.cpp:201-213 | a break keeps armed lines and lines in use equal exactly when its id is new, keeps its line, or shares its old line |
| `Answers.EvaluateIsOneExchangeIff` | ocldbg/backends/oclgrind/OclgrindBackend.cpp:396-400 | the bytes an evaluation sends are one line exactly when the name is |
| `NdRange.CountIsCeilingIff` | ocldbg/DebuggerContext.cpp:392-398 | the group count is the ceiling of the quotient exactly when global plus local size fits 64 bits |
| `NdRange.EdgesAreExact` | ocldbg/DebuggerContext.cpp:53-58 | no coordinate of a box wraps or underflows |
| `NdRange.ComputeWorkGroups` | ocldbg/DebuggerContext.cpp:40-69 | the triple loop lists the boxes of all groups in its order |
| `NdRange.BoxesByAxis` | ocldbg/DebuggerContext.cpp:42-60 | axis by axis, a zero local size counting as one: the counts are the ceilings, each box is the stretch of its group and holds what divides back to it |
| `NdRange.VolumeAt` | ocldbg/DebuggerContext.cpp:49-67 | the boxes are listed with x fastest and z slowest |
| `NdRange.BoxHoldsIff` | ocldbg/DebuggerContext.cpp:53-58 | a box holds exactly the work-items of the range that divide back to its group |
| `NdRange.VolumeTiles` | ocldbg/DebuggerContext.cpp:49-67 | every group within the counts is listed once and no other |
| `NdRange.BoxesPartitionRange` | ocldbg/DebuggerContext.cpp:40-69 | every work-item lies in one and only one box, nothing outside the range in any, for dividing, non-dividing and zero sizes |
| `NdRange.CoverIff` | ocldbg/DebuggerContext.cpp:392-398 | the boxes cover exactly the range if and only if global plus local size fits 64 bits or the range is empty; otherwise there is none |
| `NdRange.ItemsAddUp` | ocldbg/DebuggerContext.cpp:57-63 | with global plus local size in 64 bits, the item counts sum to the size of the range exactly when the largest box can be counted in 64 bits, and to less otherwise |
| `NdRange.OneHugeBox` | ocldbg/DebuggerContext.cpp:62-63 | one group of 2^32 by 2^32 work-items counts none |
| `Tracker.IdentityRoundTrip` | ocldbg/backends/cpu/WIContextExtractor.cpp:44-56 | on every axis a rebuilt global id is group times local size plus local id, divides back to both, and lies in the group's box exactly when it is in the range |
| `Tracker.IdentityRebuilt` | ocldbg/DebuggerContext.cpp:667-673 | every global id is rebuilt from its quotients and remainders by the local size of each axis |
| `Tracker.ReplayIsLatest` | ocldbg/backends/cpu/WorkGroupTracker.cpp:8-22 | after any updates a thread's group is the one recorded last since the last clear |
| `Tracker.LookupIsLatest` | ocldbg/backends/cpu/WorkGroupTracker.cpp:33-47 | a lookup answers a thread last recorded in the group of the item's quotients on each axis, and 0 exactly when there is none, thread ids being non-zero |
| `Tracker.WorkGroupTracker.HostThreadForWi` | ocldbg/backends/cpu/WorkGroupTracker.cpp:33-47 | finds a recorded thread of the item's group in whatever order the table has |
| `Tracker.WorkGroupTracker.WgForThread` | ocldbg/backends/cpu/WorkGroupTracker.cpp:49-56 | the recorded group, zeroes without one |
| `Tracker.WorkGroupTracker.RecordWg` | ocldbg/backends/cpu/WorkGroupTracker.cpp:8-11 | the thread's entry is replaced and nothing else changes |
| `Leb128.DecodeUleb128` | ocldbg/backends/cpu/PoclCPUBackend.cpp:112-124 | the cursor stops after the encoding or at the end of a truncated one, and the value is what the bytes denote |
| `Leb128.DecodeSleb128` | ocldbg/backends/cpu/PoclCPUBackend.cpp:94-110 | likewise, with the last group's sign extended |
| `Leb128.SignedIsExtended` | ocldbg/backends/cpu/PoclCPUBackend.cpp:106-108 | extending the sign after the loop is extending it in the last group |
| `Leb128.UnsignedRoundTrip` | ocldbg/backends/cpu/PoclCPUBackend.cpp:112-124 | every 64-bit value, from its canonical or padded encoding and before any suffix, is decoded to itself with the cursor at the suffix |
| `Leb128.SignedRoundTrip` | ocldbg/backends/cpu/PoclCPUBackend.cpp:94-110 | the same for two's complement values |
| `LineTable.FindPcsForLine` | ocldbg/dwarf/DWARFSourceModel.cpp:72-95 | exactly the addresses of file-matching rows at the line |
| `LineTable.FindNextLine` | ocldbg/dwarf/DWARFSourceModel.cpp:97-119 | the least greater line with matching code, or the mark for none |
| `LineTable.MatchesIff` | ocldbg/dwarf/DWARFSourceModel.cpp:67-70 | a path passes an empty filter, a filter it ends with, and any OpenCL filter if it is an OpenCL source itself, and no other |
| `LineTable.RowMatchesIff` | ocldbg/dwarf/DWARFSourceModel.cpp:83-92 | and a row whose file is not known passes none |
| `LineTable.Unique` | ocldbg/dwarf/DWARFSourceModel.cpp:133-136 | strictly increasing, the same values |
| `LineTable.SourceToPcs` | ocldbg/dwarf/DWARFSourceModel.cpp:121-137 | strictly increasing and exactly the addresses of the line asked for, or of the nearest later line with code |
| `LineTable.AnswerIsUnique` | ocldbg/dwarf/DWARFSourceModel.cpp:121-137 | the question determines the whole answer |
| `LineTable.EmptyIff` | ocldbg/dwarf/DWARFSourceModel.cpp:126-131 | no addresses exactly when no matching row is at the line or, for a non-zero line, at a later one below 2^32 - 1 |
| `LineTable.AskingAgain` | ocldbg/dwarf/DWARFSourceModel.cpp:121-137 | asking for the line answered gives the same addresses |
| `Scopes.WalkIsReach` | ocldbg/dwarf/DWARFSourceModel.cpp:254-271 | the walk meets exactly the variables reachable through inlined subroutines and active blocks |
| `Scopes.OneChild` | ocldbg/dwarf/DWARFSourceModel.cpp:259-270 | what the walk does with a child, by its tag |
| `Scopes.NeighboursSplit` | ocldbg/dwarf/DWARFSourceModel.cpp:264-268 | of two blocks that meet at an address exactly one is entered at each address |
| `ScopeOrder.MetIsOrdered` | ocldbg/dwarf/DWARFSourceModel.cpp:254-271 | the walk meets the variables in the order of their paths |
| `ScopeOrder.SeenIff` | ocldbg/dwarf/DWARFSourceModel.cpp:281-292 | looked at are exactly the variables under the subprogram at the program counter of each unit, and under every subprogram of a unit up to which nothing named had turned up |
| `Scopes.FoldIsFirsts` | ocldbg/dwarf/DWARFSourceModel.cpp:242-251 | collecting keeps the first variable of each name and loses no name |
| `Scopes.FirstsAreDistinct` | ocldbg/dwarf/DWARFSourceModel.cpp:242-251 | collected names are non-empty and pairwise distinct |
| `Scopes.AppendUniqueVar` | ocldbg/dwarf/DWARFSourceModel.cpp:242-251 | appended unless unnamed or its name is there |
| `Scopes.CollectDieVars` | ocldbg/dwarf/DWARFSourceModel.cpp:254-271 | the recursion ends on every tree and collects the walk into the accumulator |
| `ScopeOrder.VariablesInScope` | ocldbg/dwarf/DWARFSourceModel.cpp:275-296 | of each name looked at, the variable at the earliest place, in the order of those places, and nothing else |
| `DapFraming.ReadDapHeader` | ocldbg/dap/DAPServer.cpp:569-599 | the announced length and where the payload starts, or no header |
| `DapFraming.HeaderRoundTrip` | ocldbg/dap/DAPServer.cpp:28-31 | the header of a sent message announces its length and stops right before its payload, whatever the bytes |
| `DapFraming.HeaderIs` | ocldbg/dap/DAPServer.cpp:569-599 | in a header of any fields the last length field counts, others do not, and a blank line before any is passed over |
| `DapFraming.FrameIsHeader` | ocldbg/dap/DAPServer.cpp:28-31 | a frame is one length field and a blank line, ended by CR and LF, and the payload |
| `DapFraming.FieldLengthIs` | ocldbg/dap/DAPServer.cpp:584-596 | the length a field announces, 0 when there is none or it does not fit |
| `DapFraming.StreamRoundTrip` | ocldbg/dap/DAPServer.cpp:569-619 | framed payloads are recovered exactly and in order up to the first empty one or the end of the session |
| `DapFraming.RecoveredIffNonEmpty` | ocldbg/dap/DAPServer.cpp:605-618 | the whole sequence is recovered exactly when no payload is empty |
| `DapServer.OneResponseFirst` | ocldbg/dap/DAPServer.cpp:664-714 | a request adds its own response, then only the events it causes; anything else adds nothing |
| `DapServer.SessionIsNumbered` | ocldbg/dap/DAPServer.cpp:716-759 | messages leave in wire order without gaps, numbered 1, 2, 3, ... exactly while there are fewer than 2^31, and responses are exactly the requests in order |
| `DapServer.WholeSession` | ocldbg/dap/DAPServer.cpp:601-619 | from the client's bytes: every framed payload is handled and every request answered once, in order |
| `DapHistory.SessionIsHistory` | ocldbg/dap/DAPServer.cpp:484-564 | every message of a session, bodies included, and every call of the backend, read off the requests and the stops: threads, frames, references, one Resume, Select or Detach a request, the selection forgotten at a stop |
| `DapServer.OwnSeqIff` | ocldbg/dap/DAPServer.cpp:681-686 | a response carries its request's number exactly when that fits 32 bits |
| `DapServer.TableIs` | ocldbg/dap/DAPServer.cpp:536-546 | after a stop the threads are exactly 1 to n + 1, the stopped item first |
| `DapServer.OclgrindListsTwice` | ocldbg/backends/oclgrind/OclgrindBackend.cpp:326-329 | with the Oclgrind backend threads 1 and 2 are the same work-item |
| `DapServer.ReferencesDecode` | ocldbg/dap/DAPServer.cpp:421-436 | both references of a frame lead back to its thread, each to its own scope |
| `DapServer.ReferencesDiffer` | ocldbg/dap/DAPServer.cpp:362-388 | references are injective over thread and scope |
| `DapServer.ChainShowsOwnItem` | ocldbg/dap/DAPServer.cpp:320-447 | stackTrace, scopes and variables, each handled with the ids of the answer before it and any messages without a stop in between, ask for the variables of the thread's own work-item |
| `DapServer.OclgrindShowsOwnIff` | ocldbg/backends/oclgrind/OclgrindBackend.cpp:390-413 | a backend that prints for the work-item attended to shows a thread's own variables exactly when that is its work-item |
| `DapServer.SelectionShowsThrough` | ocldbg/dap/DAPServer.cpp:449-482 | after another work-item is selected, thread 1 shows that one's variables |
| `DapServer.TableStays` | ocldbg/dap/DAPServer.cpp:536-564 | only a stop changes the thread table |
| `DapServer.StepGoesToOwnItem` | ocldbg/dap/DAPServer.cpp:484-501 | a step is asked of the backend once, for the thread's own work-item |
| `DapServer.ScopesPartition` | ocldbg/dap/DAPServer.cpp:390-408 | the two scopes share out the resolved variables |
| `DapServer.ScopeShowsItsOwn` | ocldbg/dap/DAPServer.cpp:390-408 | a variable is shown exactly in the scope of its address space |
| `DapServer.DAPServer.OnStop` | ocldbg/dap/DAPServer.cpp:536-564 | the callback replaces the thread table, forgets the selection, takes the line if there is one and announces the stop |
| `DapServer.DAPServer.HandleMessage` | ocldbg/dap/DAPServer.cpp:664-714 | one message's effect on the server, on the wire and on the backend |
| `DapServer.DAPServer.HandleVariables` | ocldbg/dap/DAPServer.cpp:421-447 | decodes the reference and answers the chosen scope of the thread's item |
| `DapServer.DAPServer.RunStdio` | ocldbg/dap/DAPServer.cpp:601-619 | handles exactly the received payloads, in order, until disconnect or the stream fails |
| `CpuBreakpoints.DebuggerContext.AddOclBreakpoint` | ocldbg/DebuggerContext.cpp:779-796 | registers under the next id and runs a resolution pass |
| `CpuBreakpoints.DebuggerContext.DeleteOclBreakpoint` | ocldbg/DebuggerContext.cpp:798-809 | the first entry of the id goes, and says whether there was one |
| `CpuBreakpoints.DeletedIsFirst` | ocldbg/DebuggerContext.cpp:798-809 | of several entries with one id only the first goes |
| `CpuBreakpoints.DebuggerContext.ResolvePendingOclBreakpoints` | ocldbg/DebuggerContext.cpp:842-884 | one pass over host and kernel breakpoints; true exactly when it newly resolved at least one |
| `CpuBreakpoints.PassIs` | ocldbg/DebuggerContext.cpp:824-884 | entry by entry, which breakpoints a pass resolves, at which address and with which line |
| `CpuBreakpoints.OperationLeavesNothing` | ocldbg/DebuggerContext.cpp:779-796 | after setting, launching and resolving no breakpoint is left that the modules can place |
| `CpuBreakpoints.SetAdds` | ocldbg/DebuggerContext.cpp:779-796 | a breakpoint is entered last, under the next id, with its own file and line, resolved exactly if it can be |
| `CpuBreakpoints.ResolvedStays` | ocldbg/DebuggerContext.cpp:842-884 | over any operations a resolved breakpoint stays in the registry as it is exactly until its id is removed, and its id never comes back |
| `CpuBreakpoints.PoclCPUBackend.SetBreakpoint` | ocldbg/backends/cpu/PoclCPUBackend.cpp:346-353 | the next backend id, mirrored below once the context exists |
| `CpuBreakpoints.PoclCPUBackend.RemoveBreakpoint` | ocldbg/backends/cpu/PoclCPUBackend.cpp:355-360 | the same id is erased on both sides |
| `CpuBreakpoints.PoclCPUBackend.LaunchHost` | ocldbg/backends/cpu/PoclCPUBackend.cpp:320-336 | pending breakpoints are handed over in id order, even by a launch that then fails |
| `CpuBreakpoints.IdSpacesAgree` | ocldbg/backends/cpu/PoclCPUBackend.cpp:320-360 | over every run from the start with one launch, successful or not, both sides hold the same ids and files whatever follows exactly when nothing was removed before it |
| `CpuBreakpoints.SettingShowsIff` | ocldbg/backends/cpu/PoclCPUBackend.cpp:346-353 | once a breakpoint has been set after the launch they hold the same exactly when nothing was removed before it |
| `CpuBreakpoints.AgreeAfterLaunchIff` | ocldbg/backends/cpu/PoclCPUBackend.cpp:325-327 | right after the launch both sides hold the same ids and files exactly when only those set last had been removed |
| `CpuBreakpoints.NumbersAgreeAfterLaunchIff` | ocldbg/backends/cpu/PoclCPUBackend.cpp:325-327 | and will number the next one alike exactly when none had been; otherwise the next id below lags behind |
| `CpuBreakpoints.RemovalDiverges` | ocldbg/backends/cpu/PoclCPUBackend.cpp:346-360 | a run after which a breakpoint removed above is still there below |

## Left out

- Process and socket set-up, `poll`, `fork`, `exec` and environment handling: launching starts where the plugin has connected, and a launch that never gets a connection is not modelled.
- LLDB, LLVM and Oclgrind internals: replaced by arbitrary traces, rows, trees and functions.
- A signal for writing to a closed socket: a write whose peer is gone fails, as the channel code expects.
- Ids beyond 64 bits: runs in which 2^64 - 2 or more Oclgrind breakpoints are set, and the wrap-around of the CPU backend's counters.
- Relaunching a session after it has ended.
- Leb128.DecodeUleb128: encodings longer than ten bytes shift by more than the word, which C++ leaves undefined; here such a shift yields zero, so only the cursor is meaningful there.
- Leb128.DecodeSleb128: the same; and the sign mask of a nine-byte negative encoding negates the least 64-bit number, which C++ leaves undefined and which here wraps.
- LineTable.SourceToPcs: the library sort is represented by an insertion sort; only order and membership are used.
- DapServer.SessionIsNumbered: past 2^31 messages the counter overflows, which C++ leaves undefined and which here wraps.
- DapServer.DAPServer.OnStop: the current source file, which only names the source of a frame.
- DapServer.DAPServer.HandleMessage: the bodies of responses other than threads, frames, scopes and variables, thread and source names, and what `launch` and `setBreakpoints` ask of the backend.
- `compute_sample_work_items`, `list_stopped_work_items`, `match_wg` and the register heuristics: samples and guesses without an exact promise.
- The parameter cache of the CPU location backend, which is keyed by name across work-items.
- Command-line parsing, CLI commands, console output, the editor extension and the test drivers.
