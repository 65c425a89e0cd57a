# OpenProfiler, modelled in Dafny

OpenProfiler is a Java profiler: a Java agent instruments classes and records method times and
allocations, a native agent records allocations on its own, and a terminal client samples stacks,
starts and stops recording and shows the results. This project models the parts of it that carry
real invariants and proves what they are for.

Code that updates fields, arrays or maps in place is modelled as classes and methods with loops, each
proved against a function on values; the laws are then lemmas about those functions, over all inputs
and all runs. Protocols between threads, processes or the user and the background are state machines,
and their invariants hold over every run. `dafny verify dfyconfig.toml` checks everything.

| files | what they model |
|---|---|
| `MethodStack`, `Recorder`, `RecorderModel` | the per-thread stack of parallel arrays, the accumulators, and each recording call |
| `RecorderDepth`, `RecorderJdbc`, `RecorderTime`, `RecorderTotals`, `RecorderEdges`, `RecorderSampling`, `RecorderRates`, `RecorderTraces` | which calls the stack stands for, where the time goes, what the call edges count, how often a call is timed and when that changes, how boundaries are left |
| `Flushing`, `FlushedRuns`, `Registry` | moving accumulators into shared statistics, in whole runs too, and resetting both; registering methods from many threads |
| `CallTree`, `CallTreeLaws`, `CallTreeShape`, `CallTreeSamples`, `HotSpots` | merging stack samples into a call graph and its table, and what both count, told from the samples |
| `Bytecode`, `Instrumentation`, `InstrumentationProofs`, `CompiledCode`, `MethodProbes` | a stack machine, the rewriting visitor, that rewriting changes nothing but the probes, for compiled code without any assumption, and which probes those are |
| `LiveAllocations`, `AllocationPaths`, `LiveSnapshots` | the Java allocation trie with weakly held samples, and its snapshot while references die |
| `PathKeys`, `NativeAllocations`, `NativePaths`, `NativeSnapshots`, `AllocationTsv`, `AllocationDepths`, `AllocationPipeline`, `AllocationNames` | the native allocation map and its way to the client |
| `Forests`, `AllocationView` | the flattened, expandable allocation list |
| `RecordingUi`, `RecordingKeys`, `ClassFilter`, `ClassPatterns`, `ClassLifecycle`, `ClassRuns`, `Framing` | the recording button, instrumenting and restoring classes, length-prefixed messages |
| `Sequences`, `StableSorting`, `Options` | sums and occurrences, array growth, stable sorting, optional values |

## Where the code differs from what one would expect

Each of these is a lemma, with the exact condition where there is one.

- In sampling mode a recursive call's exit can end the timing of the outer call of the same method
  (`RecorderDepth.RecursiveExitPopsOuterFrame`): exactly when the ending call is not retained and the
  innermost retained call is of its method (`RecorderDepth.ExitIsAttributedExactly`).
- A JDBC call made at a positive unsampled depth and a sampled depth of 0 strands its frame
  (`RecorderJdbc.JdbcCallRestoresStack`, `RecorderJdbc.StrandedFrame`). The sampled depth is no count of the
  retained frames, since every JDBC call takes one of it (`RecorderJdbc.JdbcCallTakesADepth`,
  `RecorderJdbc.SecondCallStrands`, `RecorderJdbc.JdbcCallsInARow`).
- The first rate window is started by the 4096th call and counts the 4096 calls before it: two periods of 4096
  calls switch a thread to sampling when the second takes at most 819 ms, about 5001 calls a second where
  10000 are meant (`RecorderRates.FirstChance`); later windows count right (`RecorderRates.SamplesExactlyWhenFast`).
- A reset in the middle of calls unbalances the depths (`RecorderDepth.ResetKeepsDepthsOnlyAtRest`).
- The reset that starts a session does not drop a thread's time of a call that a snapshot of the session before
  fell into (`Flushing.ResetForgets`, `Flushing.TimeOutlivesReset`).
- New arrays of arrays are reported under a type that does not exist
  (`InstrumentationProofs.ArrayReportIsRight`), calls whose SQL text is not the last argument break
  the rewritten code (`InstrumentationProofs.DirectSqlNeedsTextOnTop`,
  `InstrumentationProofs.UpdateWithKeysNeverRuns`), and the probe-id branch is dead
  (`Instrumentation.ProbeIdsAreApiHotSpots`).
- The table between the agents drops rows with unusual line separators or very large counters
  (`AllocationTsv.TableRoundTrip`); depths of very long Java paths are capped
  (`AllocationDepths.LiveRowDepth`).
- A second class of the same name is forgotten on restore (`ClassLifecycle.SecondOfANameIsLost`, with
  `ClassLifecycle.CleanStopRestores` saying exactly when), and a name left noted keeps a later class from being
  instrumented (`ClassLifecycle.NotedNameIsPassedOver`, with `ClassLifecycle.CleanStartInstruments`); so does a
  class whose definition fails (`ClassRuns.UndefinedClassIsPassedOver`).
- A message header cut short is read as if zeros followed (`Framing.CutHeaderIsTakenForEmpty`).

## Model

| member | source | states |
|---|---|---|
| `MethodStacks.MethodStack.constructor` | java-agent/src/main/java/com/openprofiler/agent/Profiler.java:138-143 | a fresh stack shows no frame |
| `MethodStacks.MethodStack.Push` | java-agent/src/main/java/com/openprofiler/agent/Profiler.java:145-168 | the stack becomes the old one with the new frame on top; arrays that are full are replaced by longer copies that lose nothing |
| `MethodStacks.MethodStack.PopMethodId` | java-agent/src/main/java/com/openprofiler/agent/Profiler.java:170-176 | exactly the top frame goes and its method is returned; on an empty stack nothing changes |
| `MethodStacks.MethodStack.FindFromTop` | java-agent/src/main/java/com/openprofiler/agent/Profiler.java:178-185 | the innermost index holding the method, -1 if none does |
| `MethodStacks.MethodStack.Truncate` | java-agent/src/main/java/com/openprofiler/agent/Profiler.java:187-191 | the frames below the given depth stay and the rest go; a depth out of range changes nothing |
| `MethodStacks.MethodStack.FramesFromTop` | java-agent/src/main/java/com/openprofiler/agent/Profiler.java:245-252 | a new array of the frames, innermost first, with their boundary marks read from the flag bytes |
| `MethodStacks.MethodStack.EnsureDepth` | java-agent/src/main/java/com/openprofiler/agent/Profiler.java:254-278 | all five parallel arrays grow together to the doubled length that is needed; every frame stays |
| `MethodStacks.TopmostOf` | java-agent/src/main/java/com/openprofiler/agent/Profiler.java:178-185 | the result holds the method and nothing above it does |
| `Sequences.GrownLength` | java-agent/src/main/java/com/openprofiler/agent/Profiler.java:255-261 | the doubling rule never shrinks and always reaches the required length |
| `Recorders.Recorder.RecordMethodEnter` | java-agent/src/main/java/com/openprofiler/agent/Profiler.java:437-488 | the thread's state changes exactly as the enter function says: the invocation is counted, the sampling decision made, and the frame pushed or only the unsampled depth raised |
| `Recorders.Recorder.ShouldTakeTimingSample` | java-agent/src/main/java/com/openprofiler/agent/Profiler.java:457-488 | the decision and the rate counters, window and mode switch it leaves |
| `Recorders.Recorder.RecordMethodExit` | java-agent/src/main/java/com/openprofiler/agent/Profiler.java:490-498 | the exit does what the exit function says, and nothing for an unknown id |
| `Recorders.Recorder.RecordExit` | java-agent/src/main/java/com/openprofiler/agent/Profiler.java:630-693 | all branches of an exit: unsampled, not on top, untimed, and timed with self time, total, parent charge and edge |
| `Recorders.Recorder.RecordDuration` | java-agent/src/main/java/com/openprofiler/agent/Profiler.java:654-692 | the timed exit adds clamped self time and total to the method, charges the parent, counts the edge |
| `Recorders.Recorder.RecordJdbcEnter` | java-agent/src/main/java/com/openprofiler/agent/Profiler.java:513-520 | a JDBC call is registered, counted and always pushed, and raises no depth |
| `Recorders.Recorder.RecordAllocationTraceEnter` | java-agent/src/main/java/com/openprofiler/agent/Profiler.java:540-548 | a boundary frame is pushed untimed |
| `Recorders.Recorder.RecordAllocationTraceExit` | java-agent/src/main/java/com/openprofiler/agent/Profiler.java:550-563 | the frame on top goes, or everything down to the method's frame if that is deeper |
| `Recorders.Recorder.SetSamplingMode` | java-agent/src/main/java/com/openprofiler/agent/Profiler.java:890-898 | the mode is set, and switching it off clears the setting thread's rate counters |
| `Recorders.LocalCounters.EnsureCapacity` | java-agent/src/main/java/com/openprofiler/agent/Profiler.java:291-308 | the three accumulator arrays grow together and keep their contents |
| `RecorderModel.EdgeKeyRoundTrip` | java-agent/src/main/java/com/openprofiler/agent/Profiler.java:704-714 | for any two 32-bit ids the packed key fits 64 bits and both ids come back, negative ones included |
| `RecorderDepth.DepthsCountCalls` | java-agent/src/main/java/com/openprofiler/agent/Profiler.java:437-468 | in every nested run of method probes, recursion and mode switches allowed: the retained frames are a subsequence of the open calls, sampledDepth is the stack depth, and both depths together are the number of open calls |
| `RecorderDepth.RetainedStackEmbedsInCalls` | java-agent/src/main/java/com/openprofiler/agent/Profiler.java:437-563 | the same law when boundary probes are mixed in, whose frames are on the stack but in neither depth |
| `RecorderDepth.RunKeepsDepths` | java-agent/src/main/java/com/openprofiler/agent/Profiler.java:630-682 | the invariant behind both laws, kept by every event: which open call each frame belongs to, and what the depths count |
| `RecorderDepth.ClosedRunLeavesNothing` | java-agent/src/main/java/com/openprofiler/agent/Profiler.java:630-682 | when every call has ended the stack is empty and both depths are 0: no exit strands a frame |
| `RecorderDepth.ExitIsAttributedExactly` | java-agent/src/main/java/com/openprofiler/agent/Profiler.java:635-660 | whose time an exit records, in every nested run: the ending call's own frame or none, if and only if the call was retained or the innermost retained call is of another method |
| `RecorderDepth.ExitTimesItsOwnCall` | java-agent/src/main/java/com/openprofiler/agent/Profiler.java:635-660 | so without recursion an exit pops a frame exactly when the ending call was retained, and then that call's own frame |
| `RecorderDepth.RecursiveExitPopsOuterFrame` | java-agent/src/main/java/com/openprofiler/agent/Profiler.java:635-660 | the failing case, at every sampling interval from 2 on: an unsampled inner call's exit pops the retained frame of the outer call of the same method, which is still running |
| `RecorderJdbc.JdbcCallRestoresStack` | java-agent/src/main/java/com/openprofiler/agent/Profiler.java:513-524 | a JDBC call, whatever nested method and boundary calls it makes, leaves the stack as it found it, child time aside, if and only if it is not made at a positive unsampled depth and a sampled depth of 0; otherwise exactly its own frame stays |
| `RecorderJdbc.JdbcCallsInARow` | java-agent/src/main/java/com/openprofiler/agent/Profiler.java:513-524 | JDBC calls in a row, with whatever they call: made at depths U and S, k of them strand exactly min(U, max(0, k - S)) frames, those of the calls from the one numbered S on, and leave unsampled depth U less that many and sampled depth max(0, S - k) |
| `RecorderJdbc.JdbcTreeRestoresStack` | java-agent/src/main/java/com/openprofiler/agent/Profiler.java:513-524 | JDBC calls that make JDBC calls, in any number and to any depth, give the stack back if and only if they start at unsampled depth 0 or at a sampled depth no smaller than their number |
| `RecorderJdbc.SecondCallStrands` | java-agent/src/main/java/com/openprofiler/agent/Profiler.java:513-524 | a retained method frame does not help: of two JDBC calls made under a timed call, the first takes that call's depth and leaves its frame, the second strands its own |
| `RecorderJdbc.JdbcCallTakesADepth` | java-agent/src/main/java/com/openprofiler/agent/Profiler.java:513-524 | such a call leaves both depths alone if and only if both are 0 |
| `RecorderJdbc.StrandedFrame` | java-agent/src/main/java/com/openprofiler/agent/Profiler.java:513-524 | a thread gets there from a fresh start: an untimed call, one JDBC call in it, both returned, and the JDBC frame is still on the stack |
| `RecorderDepth.ResetKeepsDepthsOnlyAtRest` | java-agent/src/main/java/com/openprofiler/agent/Profiler.java:860-888 | a reset keeps the depth law if and only if no plain call is open, since it clears the depths and not the stack |
| `RecorderDepth.TimedRunMirrorsCalls` | java-agent/src/main/java/com/openprofiler/agent/Profiler.java:437-563 | while every enter is timed the stack is the call stack, frame by frame, JDBC calls included |
| `RecorderTime.TimeIsConserved` | java-agent/src/main/java/com/openprofiler/agent/Profiler.java:145-233 | over any run at all, nested or not, sampled or not: recorded self time is the durations of closed bottom frames, plus the child time held by open frames, plus the overlap, which is the child time of frames that left without it being subtracted and is never negative |
| `RecorderTime.MethodTimeIsConserved` | java-agent/src/main/java/com/openprofiler/agent/Profiler.java:654-692 | for method probes alone nothing overlaps: bottom durations and open child time are all the self time |
| `RecorderTime.SelfTimeFitsTheClock` | java-agent/src/main/java/com/openprofiler/agent/Profiler.java:654-692 | a thread's self times together never exceed what its clock has advanced |
| `RecorderTime.SelfNeverExceedsTotal` | java-agent/src/main/java/com/openprofiler/agent/Profiler.java:675-682 | every method's self time is between 0 and its total |
| `RecorderTime.ClampNeverFires` | java-agent/src/main/java/com/openprofiler/agent/Profiler.java:661-670 | with a positive, non-decreasing clock the clamp to 0 never changes a self time |
| `RecorderTime.InvocationsAreExact` | java-agent/src/main/java/com/openprofiler/agent/Profiler.java:437-455 | sampling drops timings, never invocations: each method's count is its number of enters |
| `RecorderTime.TotalsAreExactWhenTimed` | java-agent/src/main/java/com/openprofiler/agent/Profiler.java:630-692 | when every enter is timed a method's total is the sum of the inclusive times of its closed calls, read off the run itself |
| `RecorderTime.ClosedRunSelfTime` | java-agent/src/main/java/com/openprofiler/agent/Profiler.java:630-692 | and over a closed run all the self time is the time of the outermost calls |
| `RecorderTime.SampledTotalsAreLowerBounds` | java-agent/src/main/java/com/openprofiler/agent/Profiler.java:630-692 | whatever the sampling, recursion included, a method's recorded total never exceeds the inclusive times of its calls, read off the run itself |
| `RecorderTotals.SampledTotalsAreTheTimedCalls` | java-agent/src/main/java/com/openprofiler/agent/Profiler.java:630-692 | and without recursion it is exactly the inclusive times of those of its ended calls that were timed when they were entered |
| `RecorderSampling.SamplingCadence` | java-agent/src/main/java/com/openprofiler/agent/Profiler.java:457-468 | in sampling mode, over any run in which nobody sets the mode, with exits, JDBC calls and boundary probes anywhere: timed enters and counter are quotient and remainder of the enters seen, wherever the counter stood |
| `RecorderSampling.NoEarlySampling` | java-agent/src/main/java/com/openprofiler/agent/Profiler.java:470-488 | left to itself a thread never switches to sampling mode in its first 8191 calls, however fast they come |
| `RecorderRates.SamplesExactlyWhenFast` | java-agent/src/main/java/com/openprofiler/agent/Profiler.java:470-488 | left to itself a thread samples after a run if and only if some call of the run ended a window fast, window and count read off the times of the calls by position: a 4096th call since the call that ended the window before, 500 ms or more after the window was started, at 10000 calls a second or more |
| `RecorderRates.FirstChance` | java-agent/src/main/java/com/openprofiler/agent/Profiler.java:470-488 | after exactly 8192 calls it samples if and only if the second half of them took 500 to 819 ms |
| `RecorderRates.SwitchedOffStartsOver` | java-agent/src/main/java/com/openprofiler/agent/Profiler.java:890-898 | switched off, whatever was counted before, it samples again exactly when a later call ends a window fast, and what is open or measured stays |
| `RecorderRates.SwitchedOnSamples` | java-agent/src/main/java/com/openprofiler/agent/Profiler.java:890-898 | switched on, it samples until someone sets the mode, and the count of samples goes on where it stood |
| `RecorderRates.SwitchedOffAndOn` | java-agent/src/main/java/com/openprofiler/agent/Profiler.java:890-898 | switched off and on again, the calls timed are those of the whole intervals since then |
| `RecorderRates.ResetStartsOver` | java-agent/src/main/java/com/openprofiler/agent/Profiler.java:860-888 | after a reset a thread samples or counts calls from nothing, by the default mode; no call edge is older than the reset, and the stack stays |
| `RecorderTraces.TraceExitFindsItsFrame` | java-agent/src/main/java/com/openprofiler/agent/Profiler.java:550-563 | leaving a boundary takes off its innermost frame with everything on top of it, or the top frame alone if it has none, and changes nothing else |
| `RecorderTraces.BoundaryCleansUp` | java-agent/src/main/java/com/openprofiler/agent/Profiler.java:540-563 | a boundary method that makes JDBC calls in a row, at any depths, gives the stack back when it is left, also where those calls strand frames |
| `RecorderEdges.EdgesAreExactWhenTimed` | java-agent/src/main/java/com/openprofiler/agent/Profiler.java:683-692 | while edges are tracked and every enter is timed, the edge from a to b carries exactly the ended calls of b made directly from a, with their inclusive times, both read off the run itself |
| `Flushing.FlushLocalCounters` | java-agent/src/main/java/com/openprofiler/agent/Profiler.java:840-858 | one thread's flush, in place on its arrays and the shared objects, is the flush on values |
| `Flushing.FlushConservesTotals` | java-agent/src/main/java/com/openprofiler/agent/Profiler.java:834-858 | each method's three counters, summed over the shared table and all threads, do not change |
| `Flushing.FlushThreadLocalBuffers` | java-agent/src/main/java/com/openprofiler/agent/Profiler.java:834-838 | the loop over all threads, in place on their arrays and the shared objects, is the flush of all threads on values |
| `Flushing.Reset` | java-agent/src/main/java/com/openprofiler/agent/Profiler.java:860-888 | a reset in place: every thread's arrays and counters, the shared objects, the edges and the mode become what the reset functions say |
| `Flushing.ResetForgets` | java-agent/src/main/java/com/openprofiler/agent/Profiler.java:860-888 | a reset leaves nothing of a method in the table and no call of it in any thread; a thread keeps no time of it either, if and only if it had counted a call of it since the last flush or had no time |
| `Flushing.TimeOutlivesReset` | java-agent/src/main/java/com/openprofiler/agent/Profiler.java:840-888 | the failing case from a fresh start: a snapshot falls into a call, the call returns, and its time is still in the thread after the reset |
| `Flushing.FlushIsIdempotent` | java-agent/src/main/java/com/openprofiler/agent/Profiler.java:834-858 | a second flush with nothing recorded in between changes nothing |
| `Flushing.SnapshotReportsEveryInvocation` | java-agent/src/main/java/com/openprofiler/agent/Profiler.java:716-731 | a snapshot from an empty table reports every thread's invocations |
| `FlushedRuns.FlushesLoseNothing` | java-agent/src/main/java/com/openprofiler/agent/Profiler.java:834-858 | over any run of any number of threads, with flushes of single threads anywhere in it: each method's totals in the table and the threads together are those of the same run without a flush, and each thread is otherwise as in that run |
| `FlushedRuns.EveryCallIsCounted` | java-agent/src/main/java/com/openprofiler/agent/Profiler.java:437-455 | so, however snapshots fall between the calls, what was reported and what is pending are together exactly the calls made |
| `Registry.StepKeepsInv` | java-agent/src/main/java/com/openprofiler/agent/Profiler.java:397-435 | every step of every thread, each array assignment of a resize on its own, keeps the registry's invariant |
| `Registry.KnownKeyIsComplete` | java-agent/src/main/java/com/openprofiler/agent/Profiler.java:397-415 | a key found in the map has its own metadata and a stats object in the current arrays, at every moment of every interleaving |
| `Registry.KeysHaveTheirOwnIds` | java-agent/src/main/java/com/openprofiler/agent/Profiler.java:397-415 | no two keys share an id |
| `Registry.IdsAreForever` | java-agent/src/main/java/com/openprofiler/agent/Profiler.java:397-415 | a key's id never changes, whatever happens later |
| `Registry.IdsAreDense` | java-agent/src/main/java/com/openprofiler/agent/Profiler.java:397-415 | while nobody registers, the ids given out are exactly the numbers below the next one |
| `Registry.ReturnedIdIsTheKeys` | java-agent/src/main/java/com/openprofiler/agent/Profiler.java:397-415 | what a registration returned is the id of its key |
| `Registry.UsingReachesLive` | java-agent/src/main/java/com/openprofiler/agent/Profiler.java:421-435 | an update through an array taken before any number of resizes reaches the object in the current array |
| `Registry.CountsReachTheLiveCounter` | java-agent/src/main/java/com/openprofiler/agent/Profiler.java:421-435 | so every counted invocation of a method is in its live counter, and nothing else is |
| `Registry.AgreeSwitch` | java-agent/src/main/java/com/openprofiler/agent/Profiler.java:421-435 | replacing the current array by the longer copy loses nothing any array ever held |
| `CallTrees.BuildCallTree` | crates/tui/src/call_tree.rs:10-115 | the nested loops over samples and frames build the graph of the sample events |
| `CallTrees.AddSample` | crates/tui/src/call_tree.rs:41-111 | one sample's frames, outermost first, extend the graph by that sample's events |
| `CallTrees.RetainedFrames` | crates/tui/src/call_tree.rs:42-46 | the frames that are not thread-state lines, in order |
| `CallTrees.FrameKeysAreNotTheRootKey` | crates/tui/src/call_tree.rs:34-53 | no frame's key is the root's |
| `CallTreeLaws.NodeCountsAreExact` | crates/tui/src/call_tree.rs:54-90 | a key has a node exactly if it occurs; its count is its number of occurrences, its total and self time are the interval times occurrences and leaf occurrences |
| `CallTreeLaws.EdgeCountsAreExact` | crates/tui/src/call_tree.rs:92-108 | a pair of distinct keys has an edge exactly if it occurs adjacent, with its number of adjacent occurrences and the time that goes with it |
| `CallTreeLaws.FlowLaw` | crates/tui/src/call_tree.rs:36-112 | at every node but the root: count = samples it starts + incoming edges + direct recursion = samples it ends + outgoing edges + direct recursion |
| `CallTreeLaws.FlowIn` | crates/tui/src/call_tree.rs:92-110 | the incoming half, over events |
| `CallTreeLaws.FlowOut` | crates/tui/src/call_tree.rs:92-110 | the outgoing half, over events of finished samples |
| `CallTreeLaws.SelfTimeIsOnePerSample` | crates/tui/src/call_tree.rs:54-90 | all self time together is one interval per admitted sample with a retained frame |
| `CallTreeLaws.SampleOrderDoesNotMatter` | crates/tui/src/call_tree.rs:36-112 | counts and times per key and per pair of keys are the same for any order of the samples |
| `CallTreeSamples.RetainedAreKept` | crates/tui/src/call_tree.rs:42-46 | the kept frames of a trace are exactly those in whose class name "java.lang.Thread.State" starts nowhere, at strictly increasing positions |
| `CallTreeSamples.NodesCountPositions` | crates/tui/src/call_tree.rs:31-90 | told from the samples alone: a method has a node exactly if it is at a kept position of a counted sample's trace; its count is the number of those positions, its total time the interval times that, its self time the interval times the traces it is innermost in |
| `CallTreeSamples.EdgesCountPositions` | crates/tui/src/call_tree.rs:90-108 | a call has an edge exactly if caller and callee are neighbours among the kept positions of some counted trace, and its count and time are those of the positions |
| `CallTreeSamples.NodeComesFromFirstPosition` | crates/tui/src/call_tree.rs:48-88 | a node's names, file, line and parent are those at the first such position |
| `CallTreeShape.CallTreeIsATree` | crates/tui/src/call_tree.rs:62-90 | every node but the root names an earlier parent; child lists hold exactly the nodes naming that parent, each once |
| `CallTreeShape.NodeComesFromFirstEvent` | crates/tui/src/call_tree.rs:65-83 | a node's parent and fields are those of its key's first occurrence |
| `CallTreeShape.NodeSpellsItsKey` | crates/tui/src/call_tree.rs:50-53 | a node's names spell the key it is found under |
| `CallTreeShape.DrawingShowsEachNodeOnce` | crates/tui/src/render.rs:1006-1052 | the recursive drawing ends and visits every node but the root exactly once |
| `HotSpots.TableListsEveryNode` | crates/tui/src/call_tree.rs:117-146 | the table has one row per node after the root, in order; the filter drops none |
| `HotSpots.RowsCarryCounts` | crates/tui/src/call_tree.rs:117-146 | a key has a row if and only if it occurs, with its counts |
| `HotSpots.TableCountsPositions` | crates/tui/src/call_tree.rs:117-146 | each row counts the positions at which the method it names is on counted stacks, with the times that go with them, and no other row names that method |
| `HotSpots.TableMissesNoMethod` | crates/tui/src/call_tree.rs:117-146 | every method at a kept position of a counted stack has its row |
| `HotSpots.SelfSamplesAtTenMs` | crates/tui/src/call_tree.rs:117-146 | in the graph the client builds, whose interval is always 10 ms (`crates/tui/src/app.rs:168`, read at `crates/tui/src/app.rs:1154`), every row shows its true numbers of samples and of self samples |
| `HotSpots.SelfSamplesAreRight` | crates/tui/src/call_tree.rs:130 | a remark on the public function: the self sample column divides by 10 ms whatever the interval, so at another interval it would be right if and only if there are none, or the interval is at least 10 ms and close enough to it |
| `InstrumentationProofs.RewritingPreservesMeaning` | java-agent/src/main/java/com/openprofiler/agent/ProfilingMethodVisitor.java:98-262 | for shaped straight-line code the rewritten code runs whenever the original does, to the same stack, heap, original locals and order of calls; every finished object is reported once, and under its own type unless arrays of arrays are made |
| `InstrumentationProofs.MethodKeepsMeaning` | java-agent/src/main/java/com/openprofiler/agent/ProfilingMethodVisitor.java:43-96 | the same for a whole method with its entry and exit probes, recording or not: the number of reports is the number of objects finished, and each names its object's type unless arrays of arrays are made |
| `MethodProbes.MethodReportsExactly` | java-agent/src/main/java/com/openprofiler/agent/ProfilingMethodVisitor.java:43-96 | the probes a rewritten method makes while recording, in order: enter with its id, those of its body, exit with its id, for a recorded method; trace enter with the boundary mark and trace exit for a boundary; neither of the four for other methods or while not recording |
| `MethodProbes.BodyReportsExactly` | java-agent/src/main/java/com/openprofiler/agent/ProfilingMethodVisitor.java:112-262 | the probes of its body, instruction by instruction: what each allocation, SQL call and JDBC call reports, with which arguments |
| `InstrumentationProofs.NestedConstructionIsShaped` | java-agent/src/main/java/com/openprofiler/agent/ProfilingMethodVisitor.java:112-119 | NEW, DUP, argument code and constructor call have the needed shape if the argument code has |
| `CompiledCode.CompiledCodeKeepsMeaning` | java-agent/src/main/java/com/openprofiler/agent/ProfilingMethodVisitor.java:43-262 | no assumption on the code's shape left: for every body compiled from expressions and statements with constructions nested in any way, the rewritten method runs wherever the body does, to the same stack, heap, calls and locals, and reports exactly the objects made, each under its own type unless arrays of arrays are made |
| `InstrumentationProofs.DirectSqlRuns` | java-agent/src/main/java/com/openprofiler/agent/ProfilingMethodVisitor.java:120-129 | around a direct SQL call exactly its text is reported before and after, whatever the call returns |
| `InstrumentationProofs.PrepareSqlRuns` | java-agent/src/main/java/com/openprofiler/agent/ProfilingMethodVisitor.java:130-151 | around a prepare call the same, and the returned statement is tied to the text |
| `InstrumentationProofs.PreparedExecutionRuns` | java-agent/src/main/java/com/openprofiler/agent/ProfilingMethodVisitor.java:152-166 | around a prepared execution its statement is reported before, and the exit after |
| `InstrumentationProofs.JdbcCallRuns` | java-agent/src/main/java/com/openprofiler/agent/ProfilingMethodVisitor.java:167-189 | around any other database call its class, name and descriptor are reported before and after |
| `InstrumentationProofs.ArrayReportIsRight` | java-agent/src/main/java/com/openprofiler/agent/ProfilingMethodVisitor.java:104-106 | the type reported for a new reference array is right if and only if its elements are not arrays |
| `InstrumentationProofs.DirectSqlNeedsTextOnTop` | java-agent/src/main/java/com/openprofiler/agent/ProfilingMethodVisitor.java:120-129 | the code around a direct SQL call runs, where the call does, if and only if a string is on top of the stack |
| `InstrumentationProofs.UpdateWithKeysNeverRuns` | java-agent/src/main/java/com/openprofiler/agent/ProfilingMethodVisitor.java:120-129 | an instance at a real overload: around `executeUpdate(String, int)` the rewritten code never runs, since a number is on top |
| `InstrumentationProofs.PrepareSqlNeedsTextOnTop` | java-agent/src/main/java/com/openprofiler/agent/ProfilingMethodVisitor.java:130-151 | likewise for a prepare call |
| `InstrumentationProofs.StringLastIsShaped` | java-agent/src/main/java/com/openprofiler/agent/ProfilingMethodVisitor.java:319-332 | an intercepted call whose last parameter is a string is always shaped |
| `InstrumentationProofs.InstanceExecutionIsShaped` | java-agent/src/main/java/com/openprofiler/agent/ProfilingMethodVisitor.java:152-166 | a zero-argument execution of an instance method has its statement on top |
| `Instrumentation.ProbeIdsAreApiHotSpots` | java-agent/src/main/java/com/openprofiler/agent/ProfilingMethodVisitor.java:167-234 | every call with a probe id is taken by the branch before it, so the probe-id branch never runs |
| `Instrumentation.ProfilingMethodVisitor.VisitMethodInsn` | java-agent/src/main/java/com/openprofiler/agent/ProfilingMethodVisitor.java:109-236 | what is emitted for a call, and the pending types left, are those of the rewriting function, branch by branch |
| `Instrumentation.ProfilingMethodVisitor.VisitTypeInsn` | java-agent/src/main/java/com/openprofiler/agent/ProfilingMethodVisitor.java:98-107 | likewise for NEW and ANEWARRAY |
| `Bytecode.ExecConcat` | java-agent/src/main/java/com/openprofiler/agent/ProfilingMethodVisitor.java:98-262 | running one sequence after another is running their concatenation; the machine the rewriting is judged on |
| `LiveAllocations.AllocationTrie.RecordObjectAllocatedAt` | java-agent/src/main/java/com/openprofiler/agent/Profiler.java:947-998 | an allocation is added to every prefix of its recorded path and to nothing else; filtered ones change nothing |
| `LiveAllocations.AllocationTrie.AddAllocationPathSegment` | java-agent/src/main/java/com/openprofiler/agent/Profiler.java:1000-1011 | one prefix more: the entry is made if missing and gets the object, every other entry stays |
| `LiveAllocations.SegmentKeepsRepresentation` | java-agent/src/main/java/com/openprofiler/agent/Profiler.java:1000-1011 | after any history each entry holds exactly the samples, size and count of the allocations recorded on an extension of its path |
| `LiveAllocations.RootIndex` | java-agent/src/main/java/com/openprofiler/agent/Profiler.java:955-961 | the innermost boundary frame, if there is one |
| `LiveAllocations.StartIsOnItsPathOnce` | java-agent/src/main/java/com/openprofiler/agent/Profiler.java:971-997 | recursion is folded: the method an allocation's path starts from does not occur on it again |
| `AllocationPaths.PathUnderBoundary` | java-agent/src/main/java/com/openprofiler/agent/Profiler.java:955-979 | under a boundary: arrays and the thread pool's allocations are dropped, and otherwise the path is the boundary's method and the ids further out at strictly increasing positions, every position with another id and no other |
| `AllocationPaths.PathFromAllocator` | java-agent/src/main/java/com/openprofiler/agent/Profiler.java:981-998 | without a boundary, if no filter drops it: the allocating method, then the ids from the top of the stack outwards at strictly increasing positions, every position with another id and no other |
| `AllocationPaths.PathIsTheStack` | java-agent/src/main/java/com/openprofiler/agent/Profiler.java:986-998 | so where the allocating method is nowhere on the stack, entry k + 1 is frame k |
| `AllocationPaths.BoundaryPathIsTheStack` | java-agent/src/main/java/com/openprofiler/agent/Profiler.java:971-978 | and where the boundary's method is nowhere further out, entry k is the frame k places out from the boundary |
| `AllocationPaths.DroppedWithoutBoundary` | java-agent/src/main/java/com/openprofiler/agent/Profiler.java:1013-1058 | without a boundary an allocation is dropped if and only if a platform class makes an array outside three methods, or its method is one of the platform's bookkeeping; that profilers' own classes are left out of the first makes no difference |
| `LiveSnapshots.SamplesContainThoseBelow` | java-agent/src/main/java/com/openprofiler/agent/Profiler.java:1000-1011 | every node's samples contain those of every node below it |
| `LiveSnapshots.GroupByParent` | java-agent/src/main/java/com/openprofiler/agent/Profiler.java:746-753 | each node is in its parent's list, once, and the lists hold nothing else |
| `LiveSnapshots.AllocationSnapshotter.LiveTotals` | java-agent/src/main/java/com/openprofiler/agent/Profiler.java:1071-1081 | each sample is looked at once, at its own moment, and counted if it is still referenced then |
| `LiveSnapshots.AllocationSnapshotter.AppendAllocationSnapshots` | java-agent/src/main/java/com/openprofiler/agent/Profiler.java:770-799 | the recursive loops append exactly the rows of the walk, for any order of children and any way references die meanwhile |
| `LiveSnapshots.SnapshotIsATree` | java-agent/src/main/java/com/openprofiler/agent/Profiler.java:770-799 | ids are positions, a row's parent is the earlier row of its one-shorter path and -1 exactly on top, and no path has two rows |
| `LiveSnapshots.SnapshotIsFair` | java-agent/src/main/java/com/openprofiler/agent/Profiler.java:770-799 | a row's count and size lie between what is alive when the walk ends and what was alive when it began, and are at least the sum over its child rows |
| `LiveSnapshots.SnapshotHidesNothingAlive` | java-agent/src/main/java/com/openprofiler/agent/Profiler.java:783-785 | a path still holding a live object at the end has its row: skipping empty nodes never hides a live one below |
| `LiveSnapshots.LookIsBetween` | java-agent/src/main/java/com/openprofiler/agent/Profiler.java:1071-1081 | a look that takes time reports no less than is alive after it and no more than before it |
| `LiveSnapshots.ChildrenHoldNoMore` | java-agent/src/main/java/com/openprofiler/agent/Profiler.java:1000-1011 | at any one moment the children of a node together hold at most what it holds |
| `PathKeys.PathKeyIsInjective` | crates/jvmti-agent/src/lib.rs:617-622 | two paths with the same decimal key are the same path |
| `NativeAllocations.AllocationMap.OnVmObjectAlloc` | crates/jvmti-agent/src/lib.rs:411-468 | one callback: guards, twelve topmost frames, methods that cannot be looked up skipped, the agent's own innermost frame dropping the event, then every prefix counted |
| `NativeAllocations.RecordedPathIsShort` | crates/jvmti-agent/src/lib.rs:435-447 | no recorded path has more than twelve steps |
| `NativePaths.PathHoldsKnownFrames` | crates/jvmti-agent/src/lib.rs:435-447 | the path holds the frames among the first twelve whose methods can be looked up, all of them and in the order of the stack; nothing is recorded if the first of them is the profiler's or a library's it brings along |
| `NativeAllocations.PrefixKeepsRepresentation` | crates/jvmti-agent/src/lib.rs:452-467 | after any events each entry is min(2^64-1, sum) of the sizes of the events whose path begins with its path, counts likewise, with the names of the first of them; the map holds nothing else |
| `NativeSnapshots.PrefixHoldsMore` | crates/jvmti-agent/src/lib.rs:452-467 | an entry never reports less than one below it |
| `NativeSnapshots.EntriesArePrefixClosed` | crates/jvmti-agent/src/lib.rs:452-467 | the stored paths are closed under shortening |
| `NativeSnapshots.SortingIsRight` | crates/jvmti-agent/src/lib.rs:299-304 | rows are ordered by path length, then size; none is lost or invented |
| `NativeSnapshots.HotSpotLines` | crates/jvmti-agent/src/lib.rs:306-329 | the numbering loop over the sorted rows computes the lines the other theorems are about |
| `NativeSnapshots.SnapshotIsNumberedRight` | crates/jvmti-agent/src/lib.rs:292-329 | whatever order the map lists its entries in: ids are positions, a path longer than one has as parent the earlier row of its one-shorter prefix and never -1 |
| `NativeSnapshots.ClimbingRebuildsThePath` | crates/jvmti-agent/src/lib.rs:308-317 | climbing parent ids from any row rebuilds its whole path |
| `AllocationTsv.TableRoundTrip` | crates/jvmti-agent/src/lib.rs:308-332 | reading the printed table gives, in order and with cleaned names, exactly the rows whose counters are below 2^63 and whose names hold no line break besides CR and LF |
| `AllocationNames.OrdinaryTableArrives` | crates/jvmti-agent/src/lib.rs:308-332 | if every name is free of line breaks but CR and LF and every number fits, the same rows arrive in the same order, each name character by character what it was, blanks for tabs and line ends |
| `AllocationNames.RowsShowTheirNames` | crates/core/src/protocol.rs:86-113 | every row the client shows names its entry's class, method, descriptor and type character by character, dots for slashes in the type, and the type itself where class and method have no name |
| `AllocationTsv.ReadNativeAllocationHotSpots` | java-agent/src/main/java/com/openprofiler/agent/TcpServer.java:290-332 | the reader's loop: blank lines, short lines and numbers that do not parse are skipped |
| `AllocationTsv.BrokenLineIsDropped` | java-agent/src/main/java/com/openprofiler/agent/TcpServer.java:308-316 | a row broken by another line separator gives no row at all, since no piece has eight fields |
| `AllocationTsv.PrintedNumberIsRead` | java-agent/src/main/java/com/openprofiler/agent/TcpServer.java:316-326 | a printed number is read back if and only if it is in range |
| `AllocationDepths.AllocationDepth` | crates/core/src/protocol.rs:116-126 | the climbing loop, capped at 16, and its break at a missing parent |
| `AllocationDepths.DepthIsLevel` | crates/core/src/protocol.rs:116-126 | the depth is the level in the tree, a missing parent counting as one level, or the cap |
| `AllocationDepths.NativeDepthIsNeverCapped` | crates/core/src/protocol.rs:86-126 | rows of a native snapshot get path length minus one, which the limit of twelve frames keeps under the cap |
| `AllocationDepths.LiveRowDepth` | crates/core/src/protocol.rs:86-126 | rows of the Java snapshot, which has no such limit, get it if and only if the path has at most 17 steps |
| `AllocationPipeline.SurvivingRowsReachTheClient` | java-agent/src/main/java/com/openprofiler/agent/TcpServer.java:256-270 | from any history to the client: exactly the rows that survive printing arrive, in order, each with the names, type, bytes, count and parent of its entry, at the depth of the part of its path that arrived; and together they are a forest |
| `AllocationPipeline.LevelIsWholePath` | crates/core/src/protocol.rs:116-126 | that depth is the path's whole length less one if and only if everything between the row and its outermost method arrived |
| `AllocationPipeline.RowsReachTheClient` | java-agent/src/main/java/com/openprofiler/agent/TcpServer.java:256-270 | so if every row survives printing, every row arrives at the depth of its whole path |
| `AllocationPipeline.LiveRowsAreAForest` | java-agent/src/main/java/com/openprofiler/agent/TcpServer.java:238-253 | the rows of a Java snapshot are a forest, and so is what the client's filter keeps of them |
| `Forests.ListingShowsOnce` | crates/tui/src/app.rs:1631-1657 | a recursive walk lists exactly the nodes all of whose ancestors are open, each once |
| `Forests.ListingOpened` | crates/tui/src/app.rs:1631-1657 | opening a listed node inserts one block right behind it and moves nothing else |
| `AllocationView.VisibleAllocationHotSpotRows` | crates/tui/src/app.rs:1452-1467 | the flattened list is the walk of the forest the rows make; with a filter it is the rows themselves |
| `AllocationView.AppendVisibleAllocationRows` | crates/tui/src/app.rs:1631-1657 | one recursive call appends the walks of a child list behind what was visible |
| `AllocationView.AllocationChildrenByParent` | crates/tui/src/app.rs:1618-1629 | each row is in its parent's list once, lists are stably sorted by bytes, largest first |
| `AllocationView.FilteredIsAForest` | crates/tui/src/app.rs:1397-1410 | whatever a filter keeps of a forest of rows is a forest, and it keeps exactly the rows it is asked to |
| `AllocationView.ChildrenAreRight` | crates/tui/src/app.rs:1618-1629 | a child list holds exactly the rows naming that parent, each once, largest first |
| `AllocationView.ListShowsOnce` | crates/tui/src/app.rs:1452-1467 | a row is listed, once, exactly if all its ancestors are there and expanded |
| `AllocationView.TogglingMovesOneBlock` | crates/tui/src/app.rs:1513-1527 | toggling a listed row inserts or removes one block right behind it, keeps the list up to it and so the selection, and toggling again undoes it |
| `AllocationView.AllocationPane.ToggleSelectedExpanded` | crates/tui/src/app.rs:1513-1527 | only a row with children toggles; the selection is clamped to the new list and, when it was on a row, stays on that row at its place |
| `RecordingUi.RunKeepsFlags` | crates/tui/src/app.rs:530-569 | over every run of keys, refreshes and answers: the pending flags are exactly the requests in flight, at most one start or stop is in flight in all, a pending start implies not recording, a pending stop implies recording, and a stop goes to the port recording runs on |
| `RecordingUi.StartsAndStopsAlternate` | crates/tui/src/app.rs:1071-1101 | successful starts and stops alternate over every run, and the button shows recording exactly when the last success was a start |
| `RecordingUi.PollDrains` | crates/tui/src/app.rs:879-889 | polling loses no request: each is still running or answered |
| `RecordingUi.App.ToggleRecording` | crates/tui/src/app.rs:530-553 | what the recording key does in each state |
| `RecordingUi.App.PollQueries` | crates/tui/src/app.rs:853-890 | draining the queue and applying every answer in order is the poll function |
| `RecordingUi.App.ApplyAnswer` | crates/tui/src/app.rs:1071-1101 | what each answer sets |
| `RecordingUi.App.AutoUpdate` | crates/tui/src/app.rs:1174-1182 | the automatic first start |
| `RecordingKeys.ToggleSendsOneRequest` | crates/tui/src/app.rs:530-553 | in every run: away from the start centre the key sends exactly one stop to the agent's port while recording and exactly one start of the selected process otherwise, unless one is in flight, and changes nothing else |
| `RecordingKeys.SessionStartsTheChosen` | crates/tui/src/app.rs:490-499 | at the start centre it selects the process selected already, or the first likely demo server listed, or the first listed, leaves the start centre and sends that process one start, unless recording runs or is being started; with none it changes nothing |
| `RecordingKeys.InitialStartIsSentOnce` | crates/tui/src/app.rs:1174-1182 | a start asked for is sent by the first tick outside the start centre and by no second one |
| `RecordingKeys.AnswerDecides` | crates/tui/src/app.rs:1071-1101 | in every run, what the poll that finds the answer in flight makes of recording, port and flags, for successes and failures of starts and stops; without it they stay |
| `RecordingKeys.KeyFlipsRecording` | crates/tui/src/app.rs:530-553 | the key and a poll in which its request succeeds turn recording on or off, on the port the start reports |
| `RecordingKeys.ListingSelects` | crates/tui/src/app.rs:893-912 | a list of processes is kept, selects the process meant, and asks for a start exactly if there is one to start outside the start centre and recording is off |
| `RecordingKeys.FlagsSayWhatIsInFlight` | crates/tui/src/app.rs:530-569 | in every run the flags are set exactly while such a request is in flight |
| `ClassPatterns.ListMatchesByPart` | java-agent/src/main/java/com/openprofiler/agent/ProfilingClassFileTransformer.java:108-122 | a list of patterns accepts a name exactly if some part between bars and commas, trimmed, without one star at its end and with slashes for dots, is not empty and begins the name; parts and trimming are told by positions in the text |
| `ClassPatterns.TrimmedAccepts` | java-agent/src/main/java/com/openprofiler/agent/ProfilingClassFileTransformer.java:104 | blanks around a whole list do not matter |
| `ClassPatterns.PatternsDecide` | java-agent/src/main/java/com/openprofiler/agent/ProfilingClassFileTransformer.java:49-106 | which classes are instrumented: never the profiler's own, always those whose allocations are traced, and of the others those of no library, with a loader, that no exclude pattern accepts and some include pattern does, if there are any |
| `ClassLifecycle.RunIsTracked` | java-agent/src/main/java/com/openprofiler/agent/ProfilingClassFileTransformer.java:14-76 | over every sequential run of loads, unloads, starts, stops, foreign and failed retransformations with distinct names: every instrumented class is noted, and none is the agent's own |
| `ClassLifecycle.CleanStopRestores` | java-agent/src/main/java/com/openprofiler/agent/JavaAgent.java:70-103 | a stop that meets no refusal leaves a class instrumented if and only if it was and it is not modifiable, not noted, or shares its name with an earlier modifiable class; its name stays noted if and only if it was and no loaded class of that name is modifiable |
| `ClassLifecycle.CleanStopLeavesNothing` | java-agent/src/main/java/com/openprofiler/agent/JavaAgent.java:70-103 | with distinct names nothing modifiable stays instrumented or noted |
| `ClassLifecycle.SecondOfANameIsForgotten` | java-agent/src/main/java/com/openprofiler/agent/JavaAgent.java:70-103 | two instrumented classes of one name: the second stays instrumented and is no longer noted |
| `ClassLifecycle.SecondOfANameIsLost` | java-agent/src/main/java/com/openprofiler/agent/JavaAgent.java:261-319 | a run that gets there with any eligible name: start, two loads of the name, stop, and the second class is still instrumented and unnoted |
| `ClassLifecycle.NotedNameIsPassedOver` | java-agent/src/main/java/com/openprofiler/agent/JavaAgent.java:261-319 | a run that leaves a name noted: start, load, unload, stop, load, start, and the eligible modifiable class stays uninstrumented while recording |
| `ClassRuns.UndefinedClassIsPassedOver` | java-agent/src/main/java/com/openprofiler/agent/ProfilingClassFileTransformer.java:38-46 | a class whose definition fails after it was rewritten stays noted, and the class of that name loaded later is passed over by the next start |
| `ClassRuns.RecordingFollowsCommands` | java-agent/src/main/java/com/openprofiler/agent/JavaAgent.java:261-319 | in every run the agent records exactly if the last command was a start, whether classes can be retransformed or not and however rewriting goes |
| `ClassLifecycle.RefusedRestoreIsKept` | java-agent/src/main/java/com/openprofiler/agent/JavaAgent.java:79-90 | a class whose restore is refused stays as it is and noted, so the next stop tries it again |
| `ClassLifecycle.CleanStartInstruments` | java-agent/src/main/java/com/openprofiler/agent/JavaAgent.java:37-68 | a start whose rewriting works instruments exactly the eligible modifiable classes whose names are not noted yet |
| `ClassLifecycle.JavaAgent.StartRecording` | java-agent/src/main/java/com/openprofiler/agent/JavaAgent.java:261-304 | switching on and the retransformation scan, class by class |
| `ClassLifecycle.JavaAgent.StopRecording` | java-agent/src/main/java/com/openprofiler/agent/JavaAgent.java:306-319 | switching off and the restore scan, class by class |
| `ClassLifecycle.JavaAgent.Transform` | java-agent/src/main/java/com/openprofiler/agent/ProfilingClassFileTransformer.java:14-46 | what the transformer answers and notes, in each of its exits |
| `Framing.FramesRoundTrip` | java-agent/src/main/java/com/openprofiler/agent/TcpServer.java:414-460 | any list of messages of at most 50,000,000 bytes arrives as sent, then the agent sees a clean end of stream |
| `Framing.AgentReadsFramesFirst` | java-agent/src/main/java/com/openprofiler/agent/TcpServer.java:414-428 | whatever follows them, whole frames are read one by one and the reader goes on as from a fresh stream |
| `Framing.HeaderRoundTrip` | crates/core/src/protocol.rs:331-343 | the four header bytes give the length back, unsigned for the client and signed for the agent |
| `Framing.LongMessagesAreRefused` | crates/core/src/protocol.rs:368-383 | both readers refuse a message by its header exactly if it is longer than fifty million bytes |
| `Framing.ReadersAgree` | crates/core/src/protocol.rs:368-383 | agent and client find the same message in every stream, except in a cut header of zeros |
| `Framing.CutHeaderIsTakenForEmpty` | java-agent/src/main/java/com/openprofiler/agent/TcpServer.java:414-441 | a header cut short is never reported; it is taken for an empty message if and only if its bytes are zeros |
| `Framing.LostConnection` | java-agent/src/main/java/com/openprofiler/agent/TcpServer.java:414-446 | a connection lost inside a header adds one empty message exactly if the bytes that came are zeros |
| `Framing.ReadFullyOrEof` | java-agent/src/main/java/com/openprofiler/agent/TcpServer.java:430-441 | however the stream is split into reads, the array is filled from its front as far as it goes; -1 exactly if nothing was left |
| `Framing.ReadMessage` | java-agent/src/main/java/com/openprofiler/agent/TcpServer.java:414-428 | the agent's reader over any split of the stream |
| `Framing.OutputStream.WriteMessage` | java-agent/src/main/java/com/openprofiler/agent/TcpServer.java:451-460 | header and body are appended |
| `Framing.HandleClient` | java-agent/src/main/java/com/openprofiler/agent/TcpServer.java:119-127 | the loop over one connection, over any split of the stream: it reads every message up to what ends the stream and writes one framed reply for each, in order |
| `Framing.EveryCommandIsAnswered` | java-agent/src/main/java/com/openprofiler/agent/TcpServer.java:119-127 | both ways: every list of commands sent is answered once each, in order, and the client reads exactly the answers |

## Left out

- Integer widths: Java's `long` and `int` counters, depths and times are unbounded here, except where the width is the point: packed edge keys, saturating native counters, 32-bit row ids, signed headers, the ranges of parsed numbers.
- Floating point: call-tree times are exact reals; percentages, averages and formatted numbers are not modelled.
- The running-time override and `MarkTopTransparentToParent`'s callers: the stack methods are modelled and proved, but the time laws start from runs without an override, since nothing in the agent calls it.
- The race between a flush and the owning thread's plain-array updates: each recording call and each flush is one step.
- The Java memory model: interleavings in `Registry` are sequentially consistent; the arrays there are volatile and the map is concurrent.
- Runs that mix JDBC calls inside JDBC calls with sampled method calls: `RecorderJdbc.JdbcTreeRestoresStack` is about JDBC calls alone, and the bodies in `RecorderJdbc.JdbcCallsInARow` hold method and boundary calls, none of them a probe of the JDBC method's own id.
- A reset's clearing of the allocation trie and of the JDBC statistics: maps made empty and counters set to 0, nothing else depends on them.
- Recording switched off in the middle of a run: the run laws of the recorder start fresh with recording on; the methods themselves model both.
- SQL statement statistics and JDBC probe counters: the probes are emitted and kept in order, what they count is not modelled.
- Exceptions, branches and loops in instrumented code, the placement of entry and exit code, and stack-map frames: straight-line code with fresh locals is rewritten; ASM does the rest.
- Code no compiler emits: `InstrumentationProofs.RewritingPreservesMeaning` asks for `ShapedRun`, which `CompiledCode` proves of compiled expressions and statements; intercepted calls whose text is not last are excluded there, as `InstrumentationProofs.DirectSqlNeedsTextOnTop` says they must be.
- Which methods are allocation boundaries (a list of names): a role given to `Instrumentation.RewriteMethod`.
- Normalising type names and measuring objects: an allocation comes with its type name and size.
- Sorting children by live size while references die: the order of each child list is arbitrary in `LiveSnapshots`.
- Allocations and resets during a snapshot: the trie stands still while it is walked, references do not.
- A method's names in the native map: taken with each frame, as the lookup's cache never changes an answer.
- Unicode digits, which Java's number parser also accepts: no printed number holds one.
- Row ids of the client are natural numbers, as both agents number rows from 0; in a native snapshot of more than 2^31 rows they are not positions any more (`NativeSnapshots.IdsArePositions`).
- The memory-class rows shown when there are no allocation rows, filters and scrolling.
- `Graph.keys` in `CallTree`: the list of keys in order of arrival exists for the proofs; the program keeps only the map.
- Refreshes, telemetry, heap snapshots and logs of the client: they touch nothing the recording button depends on.
- Class loading in parallel with a start or stop: the lifecycle is a sequence of events.
- ClassFilter.MatchesAnyPrefix: a pattern list of nothing but Unicode spaces beyond the ASCII ones matches no class in the program; here such a space is a pattern like any other character.
- Protobuf: messages are byte strings.
- Network, processes, rendering, clipboard, agent discovery and benchmarks.
