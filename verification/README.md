# Verified model of the out-of-order back end

Perseus simulates a RISC-V out-of-order core. This project models the state machines that make its
back end right and proves what they guarantee over every run.
`dafny verify dfyconfig.toml` checks the whole project.

## What is modelled

**Rename, commit, rollback** (`RenameCore`, `RenameMachine`, `Speculation`, `RenameUnit`). A
speculative map and free list, and a committed pair that advances only at commit; a flush copies the
second over the first. The invariant everything hangs on: the committed free list is the in-flight
destinations in program order followed by the speculative list. From it follow conservation of
registers, safe reuse, exact rollback, and that renaming preserves meaning for every operation
semantics and every interleaving.

**Dispatch to write-back** (`Pipeline`, `PipelineLanes`, `PipelineInv`, `PipelineRun`). A clocked
transition system with messages in transit; the two ordering edges of the source are guards. Every
run is proved to be a run of the rename machine, no wakeup is lost, nothing is lost or duplicated,
and credits balance. `PipelineRank` and `PipelineProgress` show that the model makes progress: once
fetching stops, every schedule that does not idle while a handler has something to do ends with
everything fetched committed. The source's function unit does idle; `FuSchedule`, `PacedPipeline` and
`NarrowRun` put the units on their own schedule and give the exact width at which nothing is left
behind. `LostWakeup` shows that without either ordering edge an instruction is never committed.
`RegfileTiming` adds the register file, which lags a cycle behind, and `WitnessRun` follows one small
run to the states in which the ordering of handlers matters. `StationUnit`, `DispatchUnit` and
`WriteBackUnit` hold the units as objects with the loops of the source; every group handler is proved
to be so many single steps, and `HandlerRuns` lifts these to runs of the whole system. `SourceCycle`
puts the handlers in the order of the source and shows that every cycle runs to its end.

**Reorder buffer** (`LoopQueues`, `RobUnit`, `RobRun`, `RobSteps`, `RobRefines`). The ring buffer with its wrap
flag and 32-bit size arithmetic refines a sequence and gives stable tags; the reorder buffer on top of it sends
instructions in order, flushes included, and refines the buffer of the pipeline model.

**Undo of wrong-path stores** (`Words`, `UndoLog`, `DataBackup`, `Checkpoint`). The log of
overwritten bytes, its coalescing into masked 8-byte words, and the branch checkpoints around it.

**Configuration** (`Regions`, `DispatchMap`). Merging of memory regions, and the printed dispatch and
write-back maps with their parsers.

`Prelude` and `FuncTypes` hold the few definitions they share.

## Where the code does less than it seems to promise

- A mispredicted head is sent for commit again before its flush arrives
  (`src/core/abstract_backend/Rob.cpp:116-128`). Once the flush has come, that was harmless exactly
  where the instruction has no destination, or where its register was the only one on the committed
  list and the commit releases another: `Speculation.ResentCommitHarmlessIff`. Both a harmful and a
  harmless case with a destination occur: `Speculation.ResentCommitReachable`. Even in the latter the
  released register is on the free list already, on which an assertion of `Freelist::Push` fails.
- A wrong-path store at address 0, or one that crosses an 8-byte boundary, can be lost by the
  rollback: `UndoLog.AlwaysRestoresIff` is the exact condition, `UndoLog.AddressZeroIsLost` an input.
- With no more physical than architectural registers renaming can stall for good:
  `Speculation.NeverWedgesIff`.
- `isValid` of the ring accepts every index while it is wrapped: `LoopQueues.ValidityExactIff`.
  Walking backwards from the last element of an empty ring starts on a stale one, and at depth
  2^32 - 1 the end marker is index 0: `LoopQueues.BackwardExactIff`, `LoopQueues.ForwardExactIff`.
- A result that outlives a flush marks whoever occupies its slot, which is then sent for commit without
  its own result: `RobRun.LateResultIsTaken` is a run, `RobRun.OwnResultsIff` the exact condition.
- Nothing orders the register-file write of a result before an operand read of the same cycle, when the
  register is no longer busy: `WitnessRun.StaleReadReachable` is a run that reads the old value,
  `RegfileTiming.OrderIrrelevantIff` the exact condition, and every other unmarked operand reads its
  sequential value: `RegfileTiming.DispatchReadsSequentially`.
- An instruction of a type no station supports is fetched and renamed, and then blocks commit for good,
  on any schedule: `PipelineProgress.DrainsIff`.
- The function unit runs its write-back once when a group arrives, takes at most its width and does not
  ask to run again (`src/core/func_unit/PerfectFu.cpp:48-76`); the credit message that might wake it
  carries the name of the write-back stage (`src/core/func_unit/WriteBackStage.cpp:70`). What it leaves
  behind stays until another group arrives, and blocks commit for good if none does:
  `NarrowRun.NarrowUnitBlocks` is a run. `FuSchedule.NeverLeftBehindIff` is the exact condition for one
  lane under any dispatcher: the least of station width, station depth and unit depth is at most the
  unit's width. Where it holds for every lane the pipeline drains: `PacedPipeline.PacedScheduleDrains`,
  `PacedPipeline.PacedDrainsIff`. A unit of depth 1 that takes at
  least one per cycle meets it.

## Modelling decisions

- Instructions are values named by their position in rename order; the source shares mutable
  instruction objects between units. An absent operand is register 0, which is what the decoder leaves
  in the field (`src/olympia/InstGenerator.cpp:66-165`); register 0 is never renamed and reads 0
  (section 2.1 of the RISC-V Unprivileged ISA manual).
- What an operation computes is a parameter, because the function unit computes nothing
  (`src/core/func_unit/PerfectFu.cpp:78`). In the rename machine an instruction reads its operands and
  writes its result in one step, when it leaves the write-back stage. What the source reads, the
  register file at dispatch, is `RegfileTiming`; an operand marked for forwarding is never filled in by
  the source.
- Commit of a mispredicted branch and the flush are one step in the rename machine; the source has two
  cycles in between.
- Range assertions of the source that allow an index equal to the size (renaming table, scoreboard)
  are modelled by the access itself, which must be below the size.
- A branch is resolved once. The resending above also calls `BranchResolve(true)` a second time
  (`src/core/abstract_backend/Rob.cpp:116-137`, `src/core/perfect_frontend/PerfectFrontend.cpp:60-62`),
  where `RegRollBack_` reads the front of a snapshot queue it has already drained; `Checkpoint` does
  not cover that call.
- Progress is claimed where every buffer holds at least one instruction and there are more physical than
  architectural registers; the handlers of the source take at least one instruction at a time.
- Stations, pipes and ports that the source keeps in name-ordered maps are indexed by position.

## Model

| member | source | states |
|---|---|---|
| `RenameCore.InitialInv` | src/core/abstract_backend/Freelist.cpp:10-25 | the reset state (all architectural registers on physical 0, free list 1..n-1 twice) satisfies the invariant of the renaming stage |
| `RenameCore.RenameKeepsInv` | src/core/abstract_backend/RenamingStage.cpp:187-200 | renaming one instruction keeps the invariant: conservation, the free-list split and the map chain |
| `RenameCore.OldestMatchesBackup` | src/core/abstract_backend/RenamingStage.cpp:209-218 | the oldest in-flight instruction owns the head of the committed free list and replaced the committed mapping, so BackupPop removes its own destination |
| `RenameCore.CommitKeepsInv` | src/core/abstract_backend/RenamingStage.cpp:209-222 | committing the oldest instruction is possible and keeps the invariant |
| `RenameCore.CommitConserves` | src/core/abstract_backend/Freelist.cpp:31-51 | commit trades the head of the committed free list for the released mapping: each of 1..n-1 stays held exactly once |
| `RenameCore.FlushKeepsInv` | src/core/abstract_backend/RenamingStage.cpp:104-113 | copying the committed pair over the speculative one leaves the invariant with nothing in flight |
| `RenameMachine.RunRegs` | src/core/abstract_backend/RenamingStage.cpp:187-222 | after every run of rename, execute, commit and flush: the committed free list is the in-flight destinations in program order followed by the speculative list, registers are conserved, and the speculative map is the committed one overlaid with the in-flight writes |
| `RenameMachine.AtMostOneRole` | src/core/abstract_backend/RenamingStage.cpp:187-222 | a physical register is in-flight destination, free or committed mapping at most once in all |
| `RenameMachine.ClaimsDistinct` | src/core/abstract_backend/RenamingStage.cpp:187-200 | two in-flight instructions never share a non-zero destination |
| `RenameMachine.ClaimIsExclusive` | src/core/abstract_backend/RenamingStage.cpp:187-218 | an in-flight destination is neither free nor a committed mapping |
| `RenameMachine.NoEarlyReuse` | src/core/abstract_backend/RenamingStage.cpp:187-218 | no source or replaced mapping of an in-flight instruction is free or claimed by a same-age or younger one; each was read from the committed map overlaid with all older writes |
| `RenameMachine.SourcesDenote` | src/core/abstract_backend/PhysicalRegfile.cpp:23-54 | once its writers have executed, an instruction computes from its physical sources what sequential execution computes |
| `RenameMachine.RenamingPreservesMeaning` | src/core/abstract_backend/RenamingStage.cpp:187-222 | main: for every semantics and every run, each instruction whose sources are settled computes its sequential result, and the committed map denotes the sequential register state |
| `Speculation.CommitIsInOrderStep` | src/core/abstract_backend/RenamingStage.cpp:209-222 | a commit does to the committed pair what renaming and committing the instruction from scratch would do |
| `Speculation.SpeculationIsInvisible` | src/core/abstract_backend/RenamingStage.cpp:104-113 | main: after every run the committed map and free list, order included, are those of a machine that renames and commits one instruction at a time |
| `Speculation.FlushRestoresInOrder` | src/core/abstract_backend/Freelist.cpp:57-61 | right after a flush the whole register state is that of the in-order machine |
| `Speculation.AssignmentIgnoresHistory` | src/core/abstract_backend/RenamingTable.cpp:25-29 | two runs that committed the same instructions have the same assignment and free list, whatever they interleaved, flushed or computed |
| `Speculation.ResentCommitHarmlessIff` | src/core/abstract_backend/Rob.cpp:116-128 | a mispredicted head is sent for commit again before the flush arrives; the second commit is possible and the flush leaves what it would have left if and only if the instruction has no destination, or its register is the only one on the committed list and another is released; a register released twice is already free |
| `Speculation.ResentCommitReachable` | src/core/abstract_backend/Rob.cpp:116-128 | with two architectural and three physical registers: a run in which the second commit does harm, and one more commit after which it does none |
| `Speculation.CommittedListIsLong` | src/core/abstract_backend/Freelist.cpp:19-24 | the committed free list never has fewer than phyRegs - isaRegs entries |
| `Speculation.EmptyListHasWriter` | src/core/abstract_backend/RenamingStage.cpp:115-163 | with more physical than architectural registers an empty free list implies an in-flight writer |
| `Speculation.NeverWedgesIff` | src/core/abstract_backend/RenamingStage.cpp:115-163 | main: no run ever reaches an empty free list with nothing in flight if and only if phyRegs > isaRegs |
| `RenameUnit.Freelist.constructor` | src/core/abstract_backend/Freelist.cpp:10-25 | both lists are 1..depth-1 and the counters are their multiplicities |
| `RenameUnit.Freelist.IsEmpty` | src/core/abstract_backend/Freelist.cpp:27-29 | true exactly when the speculative list is empty |
| `RenameUnit.Freelist.Push` | src/core/abstract_backend/Freelist.cpp:31-38 | appends to both lists; the two occupancy assertions pass exactly when the token was on neither |
| `RenameUnit.Freelist.Pop` | src/core/abstract_backend/Freelist.cpp:40-44 | drops the speculative head only and keeps the counters equal to the multiplicities |
| `RenameUnit.Freelist.BackupPop` | src/core/abstract_backend/Freelist.cpp:46-51 | drops the committed head only and keeps the counters equal to the multiplicities |
| `RenameUnit.Freelist.Front` | src/core/abstract_backend/Freelist.cpp:53-55 | gives the head of the speculative list |
| `RenameUnit.Freelist.RollBack` | src/core/abstract_backend/Freelist.cpp:57-61 | the speculative list becomes the committed one |
| `RenameUnit.CountsTail` | src/core/abstract_backend/Freelist.cpp:40-51 | the counter of a list head is positive, so the "at least 0" assertions cannot fire |
| `RenameUnit.RenamingTable.constructor` | src/core/abstract_backend/RenamingTable.cpp:9-13 | every architectural register starts on physical 0 in both maps |
| `RenameUnit.RenamingTable.RollBack` | src/core/abstract_backend/RenamingTable.cpp:25-29 | the copy loop makes the speculative map equal the committed one |
| `RenameUnit.RenamingStage.RenameInst` | src/core/abstract_backend/RenamingStage.cpp:187-200 | the object does what the value model says, on the map, the list and the instruction |
| `RenameUnit.RenamingStage.Rename` | src/core/abstract_backend/RenamingStage.cpp:115-185 | renames a prefix of the queue in order and pays the credits, none below zero; it stops only where the queue or the free list is empty or a limit is used up, the queue credits being limits only without a perfect LSU, so something is renamed whenever no limit is zero |
| `RenameUnit.RenamingStage.PayCredits` | src/core/abstract_backend/RenamingStage.cpp:156-162 | the credit changes of one instruction |
| `RenameUnit.RenamingStage.RobCommit` | src/core/abstract_backend/RenamingStage.cpp:209-222 | commits a group in order, and every occupancy assertion passes |
| `RenameUnit.RenamingStage.CommitOne` | src/core/abstract_backend/RenamingStage.cpp:211-218 | one commit on the object is the commit of the value model |
| `RenameUnit.RenamingStage.HandleFlush` | src/core/abstract_backend/RenamingStage.cpp:97-113 | restores the committed pair, empties queue and credits, and grants the whole queue again |
| `RenameUnit.RenameGroupRuns` | src/core/abstract_backend/RenamingStage.cpp:143-163 | a renamed group is a run of single renames of the machine, so the theorems about runs apply |
| `RenameUnit.OldestGroupCommittable` | src/core/abstract_backend/RenamingStage.cpp:209-222 | a group of the oldest in-flight instructions in order always meets what RobCommit needs |
| `RenameUnit.ReleasedIsNotFree` | src/core/abstract_backend/Freelist.cpp:31-38 | what a commit releases is on neither list: the "at most 1" assertions never fire |
| `Pipeline.FirstReady` | src/core/abstract_backend/ReservationStation.cpp:120-137 | the station picks the oldest un-issued entry with both operands valid |
| `Pipeline.FirstEligible` | src/core/abstract_backend/DispatchStage.cpp:123-139 | a lane picks the oldest un-issued instruction of a type it supports |
| `PipelineLanes.LaneKeeps` | src/core/abstract_backend/ReservationStation.cpp:65-157 | every step inside a lane keeps the wakeup invariant, given that a forwarded result has been seen |
| `PipelineInv.BusyStep` | src/core/abstract_backend/DispatchStage.cpp:57-98 | every action keeps the busy bits equal to the registers with an unseen in-flight writer, although registers are reused |
| `PipelineInv.LanesStep` | src/core/abstract_backend/DispatchStage.cpp:113-159 | every action keeps all lanes in the wakeup invariant; selection marks the right sources because write-back results are handled first |
| `PipelineRun.PipelineRefinesRenaming` | src/core/abstract_backend/DispatchStage.cpp:91-159 | main: every flush-free run of the clocked pipeline is a run of the rename machine, so every execution respects its dependences |
| `PipelineRun.PipelineComputesSequentially` | src/core/abstract_backend/RenamingStage.cpp:209-222 | in every pipeline run the committed map denotes the sequential register state |
| `PipelineRun.IssueIsSafe` | src/core/abstract_backend/ReservationStation.cpp:112-137 | whatever was passed to a function unit has all writers of its sources executed and reads its sequential operands |
| `PipelineRun.NoLostWakeup` | src/core/abstract_backend/ReservationStation.hpp:52-77 | main: every operand not yet valid is registered under its register and has a strictly older writer whose result is still to come |
| `PipelineRun.OldestNeverWaits` | src/core/abstract_backend/ReservationStation.cpp:112-137 | an instruction whose elders have executed, with no result on its way, has both operands valid |
| `PipelineRun.ForwardFirstLosesWakeup` | src/core/abstract_backend/ReservationStation.cpp:33-34 | without the allocation-first ordering edge the wakeup is lost: the operand waits for nobody |
| `PipelineRun.SelectFirstLosesWakeup` | src/core/abstract_backend/DispatchStage.cpp:50-51 | without the write-back-first ordering edge at dispatch the wakeup is lost too: the source is marked for a result that has already passed |
| `LostWakeup.LostForGood` | src/core/abstract_backend/ReservationStation.hpp:61-77 | main: from a state in which an operand waits for a register whose writers have all been seen, no continuation validates it, and the instruction and all after it are never committed |
| `LostWakeup.ForwardFirstBlocks` | src/core/abstract_backend/ReservationStation.cpp:33-34 | main: without the allocation-first edge, where a result and an operand waiting for it alone cross, the instruction is never committed |
| `LostWakeup.SelectFirstBlocks` | src/core/abstract_backend/DispatchStage.cpp:50-51 | main: without the write-back-first edge, where the only result a source waits for is due at dispatch, the instruction is never committed |
| `WitnessRun.ForwardFirstReachable` | src/core/abstract_backend/ReservationStation.cpp:33-34 | a run of the pipeline ends where the allocation-first edge matters: forwarding first leaves an operand waiting for nobody, and its instruction is never committed |
| `WitnessRun.SelectFirstReachable` | src/core/abstract_backend/DispatchStage.cpp:50-51 | a run ends where the write-back-first edge matters: selecting first marks a source that then waits for nobody, and its instruction is never committed |
| `RegfileTiming.FileCatchesUp` | src/core/abstract_backend/PhysicalRegfile.cpp:46-54 | in every run the register file, which is written a cycle after write-back, with the results still on their way written in order, holds the values the rename machine computes with |
| `RegfileTiming.DispatchReadsSequentially` | src/core/abstract_backend/DispatchStage.cpp:73-82 | main: in every run, each source of the selected instruction that is not marked for forwarding reads its sequential value from the register file, unless a result for it is due in this very cycle |
| `RegfileTiming.OperandsAreSequential` | src/core/abstract_backend/PhysicalRegfile.cpp:23-44 | main: what the register file fills into a selected instruction: the first operand is the sequential value of the first source and the second that of the second, so the operation gives the sequential result; absent and marked operands are left as they were |
| `RegfileTiming.OrderIrrelevantIff` | src/core/abstract_backend/PhysicalRegfile.cpp:23-54 | the order of a read and the write of the same cycle makes no difference, for all values, if and only if the register is no destination of the group that is due |
| `WitnessRun.StaleReadReachable` | src/core/abstract_backend/DispatchStage.cpp:44-53 | no edge orders the register-file write before the read: a run ends where a source is not marked, its result is due in this cycle, and the file still holds the old value |
| `PipelineRun.ExactlyOnce` | src/core/abstract_backend/DispatchStage.cpp:113-212 | every renamed instruction not yet written back is in exactly one place, one written back in none, and lanes hold only types they support |
| `PipelineRun.CreditsBalance` | src/core/abstract_backend/RenamingStage.cpp:124-174 | on every link held credits, credits in transit, messages in transit and un-issued entries add up to the configured depth in every run |
| `PipelineRun.NothingOverflows` | src/core/abstract_backend/Rob.cpp:54-75 | what is in or on its way to a buffer always fits it; a ROB push never finds it full |
| `PipelineRun.RetirementInOrder` | src/core/abstract_backend/Rob.cpp:98-128 | committed, retiring, buffered and arriving instructions are, in this order, the rename order, and nothing leaves before its own write-back |
| `PipelineRun.FinishFindsItsEntry` | src/core/abstract_backend/Rob.cpp:77-83 | a result reaching the reorder buffer finds its own entry there, not yet finished |
| `PipelineRank.StepLowers` | src/core/abstract_backend/DispatchStage.cpp:57-212 | every action but fetching changes nothing or lowers the measure of work left, so no order of the handlers can go round in circles |
| `PipelineProgress.RunLaneOrder` | src/core/abstract_backend/DispatchStage.cpp:113-149 | whatever a lane holds is older than every instruction it could still take |
| `PipelineProgress.RunMarked` | src/core/abstract_backend/Rob.cpp:77-83 | a result that is no longer in transit has marked its entry in the reorder buffer |
| `PipelineProgress.StreamStep` | src/core/abstract_backend/RenamingStage.cpp:143-163 | only fetching extends the fetched stream; no action drops or reorders any of it |
| `PipelineProgress.NeverStuck` | src/core/abstract_backend/RenamingStage.cpp:115-185 | no deadlock where every handler runs whenever it has something to do: with room for one instruction in every buffer, more physical than architectural registers and every fetched type supported by some lane, in every reachable state in which something fetched is not committed, some action other than fetching changes the state; the units' own schedule is PacedPipeline's |
| `PipelineProgress.EveryScheduleDrains` | src/core/abstract_backend/Rob.cpp:98-128 | main: under the same conditions, once fetching stops, every schedule of the pipeline model without idle steps is no longer than the measure of work left, and where it can go no further everything fetched is committed, in fetch order |
| `PipelineProgress.DrainsIff` | src/core/abstract_backend/DispatchStage.cpp:123-149 | main: with that room and those registers, some schedule commits all that has been fetched if and only if some lane supports the type of every fetched instruction |
| `FuSchedule.NeverLeftBehindIff` | src/core/func_unit/PerfectFu.cpp:48-76 | main: write-back runs once when a group arrives, takes at most the unit's width and does not run again; nothing is ever left behind in the unit at a tick if and only if the least of the station's width, the station's depth and the unit's depth is at most the unit's width |
| `FuSchedule.OneStays` | src/core/func_unit/PerfectFu.cpp:56-76 | for every narrower unit, a run in which one more arrives than it takes and one stays |
| `FuSchedule.LeftStays` | src/core/func_unit/PerfectFu.cpp:39-54 | what is left behind stays until another group arrives: no other move takes it or sets the event off |
| `PacedPipeline.PacedIsDriven` | src/core/func_unit/PerfectFu.cpp:48-76 | a run of the pipeline on the units' own schedule is a run of the pipeline, so every theorem about those holds |
| `PacedPipeline.UnitsKeepUp` | src/core/func_unit/PerfectFu.cpp:56-76 | with units wide enough for what can arrive in one cycle, every unit can take all it holds in every such run |
| `PacedPipeline.PacedNeverStuck` | src/core/func_unit/PerfectFu.cpp:48-76 | no deadlock on the units' own schedule either, under the conditions above, where every station may pass something and every unit is wide enough |
| `PacedPipeline.PacedScheduleDrains` | src/core/func_unit/PerfectFu.cpp:48-76 | main: with units wide enough, once fetching stops every run on the units' own schedule that does not idle is bounded and ends with everything fetched committed, in fetch order |
| `PacedPipeline.PacedDrainsIff` | src/core/func_unit/PerfectFu.cpp:48-76 | with units wide enough, what has been fetched can be committed on the units' own schedule if and only if every fetched type is supported |
| `PacedPipeline.LeftBehindBlocks` | src/core/func_unit/PerfectFu.cpp:56-76 | where all that has not executed was left behind in one unit, no continuation without fetching ever commits it, whatever the other units do |
| `NarrowRun.NarrowUnitBlocks` | src/core/func_unit/PerfectFu.cpp:56-76 | a run at station width 2, depths 2 and unit width 1: room everywhere and every type supported, yet commit is blocked for good |
| `StationUnit.ReservationStation.constructor` | src/core/abstract_backend/ReservationStation.hpp:49-50 | an empty station is that of the initial lane |
| `StationUnit.ReservationStation.AcceptCredit` | src/core/abstract_backend/ReservationStation.cpp:38-43 | is the credit step of the lane |
| `StationUnit.ReservationStation.AllocateOne` | src/core/abstract_backend/ReservationStation.hpp:52-59 | is one arrival step: valid unless marked, else registered under its register |
| `StationUnit.ReservationStation.AllocateReStation` | src/core/abstract_backend/ReservationStation.cpp:65-89 | the group loop is as many arrival steps of the lane |
| `StationUnit.ReservationStation.Resolve` | src/core/abstract_backend/ReservationStation.hpp:61-77 | is one forward step: wakes exactly the registered operands and clears the buckets; reports whether there were any |
| `StationUnit.ReservationStation.GetForwardingData` | src/core/abstract_backend/ReservationStation.cpp:91-96 | the group loop is as many forward steps of the lane, and reports whether any result found an operand waiting for it |
| `StationUnit.ReservationStation.PopInst` | src/core/abstract_backend/ReservationStation.cpp:98-110 | only issued entries leave, from the front, and at most half of the station rounded up |
| `StationUnit.ReservationStation.PassOne` | src/core/abstract_backend/ReservationStation.cpp:129-136 | is one pass step of the lane: the oldest ready entry |
| `StationUnit.ReservationStation.PassingInst` | src/core/abstract_backend/ReservationStation.cpp:112-157 | passes the oldest ready entries, at most min(credit, width), and fewer only when no ready one is left |
| `StationUnit.PerfectFu.Allocate` | src/core/func_unit/PerfectFu.cpp:48-54 | the group loop is as many arrivals at the function unit |
| `StationUnit.PerfectFu.FinishOne` | src/core/func_unit/PerfectFu.cpp:64-66 | the oldest leaves and gives one credit back |
| `StationUnit.PerfectFu.WriteBack` | src/core/func_unit/PerfectFu.cpp:56-76 | the oldest min(width, queue) leave in order, each giving one credit back |
| `StationUnit.PerfectFu.Cycle` | src/core/func_unit/PerfectFu.cpp:48-76 | one cycle on the unit's own schedule: what leaves followed by what stays is the queue followed by the arrivals, and nothing stays exactly when it all fits the width of an event that only arrivals set off |
| `HandlerRuns.LaneStepsLift` | src/core/abstract_backend/ReservationStation.cpp:65-157 | so many steps of a lane are so many actions of the pipeline, so the handlers above are runs of it |
| `DispatchUnit.Scoreboard.constructor` | src/core/abstract_backend/Scoreboard.cpp:9-16 | nothing is busy |
| `DispatchUnit.Scoreboard.Flush` | src/core/abstract_backend/Scoreboard.cpp:18-22 | nothing is busy afterwards |
| `DispatchUnit.Scoreboard.GetBusyBit` | src/core/abstract_backend/Scoreboard.cpp:24-27 | true exactly for busy registers |
| `DispatchUnit.Scoreboard.SetBusyBit` | src/core/abstract_backend/Scoreboard.cpp:29-35 | adds the register unless it is 0 |
| `DispatchUnit.Scoreboard.ClearBusyBit` | src/core/abstract_backend/Scoreboard.cpp:37-43 | removes the register unless it is 0 |
| `DispatchUnit.DispatchStage.AcceptCredit` | src/core/abstract_backend/DispatchStage.cpp:214-216 | is the credit step of that lane of the pipeline; no other lane gains credit |
| `DispatchUnit.DispatchStage.AllocateInst` | src/core/abstract_backend/DispatchStage.cpp:57-71 | the group loop is as many arrival steps of the dispatch model, with destinations marked busy |
| `DispatchUnit.DispatchStage.FuncUnitBack` | src/core/abstract_backend/DispatchStage.cpp:91-98 | the group loop is as many result steps of the dispatch model, with destinations cleared |
| `DispatchUnit.DispatchStage.PopIssueQueue` | src/core/abstract_backend/DispatchStage.cpp:196-212 | exactly the issued entries at the front leave |
| `DispatchUnit.DispatchStage.SelectOne` | src/core/abstract_backend/DispatchStage.cpp:140-148 | one more selection: the first eligible entry, with busy sources marked for forwarding |
| `DispatchUnit.DispatchStage.SelectFor` | src/core/abstract_backend/DispatchStage.cpp:117-149 | one lane takes its oldest eligible instructions, at most min(width, credit), and fewer only when none is left |
| `DispatchUnit.DispatchStage.SelectInst` | src/core/abstract_backend/DispatchStage.cpp:113-159 | the nested loops serve every lane greedily in turn, and report the sum |
| `DispatchUnit.DispatchStage.IssueInst` | src/core/abstract_backend/DispatchStage.cpp:175-187 | each lane is sent exactly what the tick of the pipeline puts in its inbox, and the stage is left as the tick leaves it |
| `HandlerRuns.DispatchStepsLift` | src/core/abstract_backend/DispatchStage.cpp:57-98 | so many steps of the dispatch stage are so many actions of the pipeline |
| `HandlerRuns.SelectTimesLift` | src/core/abstract_backend/DispatchStage.cpp:123-149 | selecting n times for a lane is n select actions of the pipeline |
| `HandlerRuns.SelectLanesLift` | src/core/abstract_backend/DispatchStage.cpp:113-159 | one round of selection is a run of the pipeline |
| `HandlerRuns.RenameLift` | src/core/abstract_backend/RenamingStage.cpp:143-174 | renaming a group within the credits is as many rename actions of the pipeline, with the same registers, group and credits |
| `HandlerRuns.RobStepsLift` | src/core/abstract_backend/Rob.cpp:65-128 | so many steps of the reorder buffer are so many actions of the pipeline |
| `WriteBackUnit.WriteBackStage.AcceptFuncInst` | src/core/func_unit/WriteBackStage.cpp:54-62 | the group loop is as many arrivals at that pipe, and changes no other |
| `WriteBackUnit.WriteBackStage.TakeFrom` | src/core/func_unit/WriteBackStage.cpp:72-85 | takes the oldest of one pipe, at most the budget, and removes just those |
| `WriteBackUnit.WriteBackStage.ArbitrateInst` | src/core/func_unit/WriteBackStage.cpp:64-87 | serves the pipes in order from one budget; each loses exactly what it hands over and keeps something only if the budget ran out |
| `HandlerRuns.ArbitrateLift` | src/core/func_unit/WriteBackStage.cpp:64-90 | handing over n of a pipe is n arbitrate actions of the pipeline |
| `HandlerRuns.ArbitrateLanesLift` | src/core/func_unit/WriteBackStage.cpp:64-90 | one round of arbitration over all pipes is a run of the pipeline that broadcasts exactly what the stage hands over |
| `HandlerRuns.HandlerIsDriven` | src/core/abstract_backend/DispatchStage.cpp:57-212 | whatever a group handler does in a reachable state leads to a reachable state, by the actions it stands for |
| `SourceCycle.CycleIsDriven` | src/core/abstract_backend/DispatchStage.cpp:40-53 | main: from every reachable state and for all widths a whole cycle runs to its end, all handlers of all units in the order the source fixes, each taking all that is in its inbox or as much as it can within its width; then every inbox is empty, the clock can tick, and each inbox holds what was sent |
| `SourceCycle.InboxReady` | src/core/abstract_backend/ReservationStation.cpp:33-34 | in every reachable state whatever is waiting in an inbox can be handled, results only once the arrivals are |
| `WriteBackUnit.PhysicalRegfile.constructor` | src/core/abstract_backend/PhysicalRegfile.cpp:11-16 | all registers are 0 |
| `WriteBackUnit.PhysicalRegfile.ReadPhysicalReg` | src/core/abstract_backend/PhysicalRegfile.cpp:23-44 | fills each operand that is present and not marked for forwarding, register 0 reading 0, and leaves every other operand alone |
| `WriteBackUnit.PhysicalRegfile.WritePhysicalReg` | src/core/abstract_backend/PhysicalRegfile.cpp:46-54 | the loop writes the group in order and leaves register 0 alone |
| `WriteBackUnit.ReadAfterWrite` | src/core/abstract_backend/PhysicalRegfile.cpp:23-54 | after a group of writes a register reads the youngest result for it, an unwritten one its old value, register 0 always 0 |
| `UndoLog.RecordHolds` | src/utils/spikeInterface/src/spikeInterface.cpp:1000-1018 | a logged entry holds the bytes memory had before the store |
| `UndoLog.MaskByte` | src/utils/spikeInterface/src/spikeInterface.cpp:1234-1234 | the shifted mask is 0xFF exactly in the bytes the entry covers |
| `UndoLog.MergeIsBytewise` | src/utils/spikeInterface/src/spikeInterface.cpp:1234-1243 | the three-way masked merge acts on every byte separately |
| `UndoLog.DrainByte` | src/utils/spikeInterface/src/spikeInterface.cpp:1224-1251 | for every byte the merged words hold what the oldest effective entry logged |
| `UndoLog.RollbackRefinesUndo` | src/utils/spikeInterface/src/spikeInterface.cpp:1223-1268 | main: on every memory and every log inside aligned words at non-zero addresses, the coalesced masked rollback is the one-at-a-time undo, newest first |
| `UndoLog.UndoRestores` | src/utils/spikeInterface/src/spikeInterface.cpp:1000-1018 | undoing one at a time gives back the memory before the first logged store |
| `UndoLog.RollbackRestores` | src/utils/spikeInterface/src/spikeInterface.cpp:1223-1268 | after recoverable stores the rollback gives back the memory before the first of them |
| `UndoLog.AlwaysRestoresIff` | src/utils/spikeInterface/src/spikeInterface.cpp:1226-1250 | main: the rollback restores memory for all contents and data if and only if each touched byte is first touched by a store not at address 0 that has it in its own aligned word |
| `UndoLog.InWordIsRecoverable` | src/utils/spikeInterface/src/spikeInterface.cpp:1229-1231 | stores inside one aligned word at non-zero addresses always qualify |
| `UndoLog.AddressZeroIsLost` | src/utils/spikeInterface/src/spikeInterface.cpp:1226-1228 | a wrong-path byte stored at address 0 is never put back |
| `DataBackup.Backup.IsEmpty` | src/utils/spikeInterface/src/DataBackup.hpp:53-55 | true exactly when the drain loop has nothing left to do: no entry and no group |
| `DataBackup.Backup.MakeBackupEntry` | src/utils/spikeInterface/src/DataBackup.hpp:57-61 | opens an empty newest group; the log is unchanged |
| `DataBackup.Backup.Push` | src/utils/spikeInterface/src/DataBackup.hpp:63-67 | appends to the newest group and so to the log |
| `DataBackup.Backup.Pop` | src/utils/spikeInterface/src/DataBackup.hpp:69-73 | the log loses exactly the entries of the oldest group, from its front |
| `DataBackup.Backup.GetBackupEntry` | src/utils/spikeInterface/src/DataBackup.hpp:75-97 | takes the newest entry, or none where the newest group is empty; entries plus groups decrease and the log is stable again exactly when drained |
| `DataBackup.DrainLog` | src/utils/spikeInterface/src/spikeInterface.cpp:1224-1251 | the drain loop terminates with both log and groups empty and computes the merged words |
| `DataBackup.WriteWord` | src/utils/spikeInterface/src/spikeInterface.cpp:1260-1265 | the byte loop writes exactly the masked bytes of one word |
| `DataBackup.WriteBack` | src/utils/spikeInterface/src/spikeInterface.cpp:1253-1266 | whatever order the words are walked in, the result is the restored memory |
| `DataBackup.MemoryRollBack` | src/utils/spikeInterface/src/spikeInterface.cpp:1223-1268 | the whole rollback: log drained, memory restored |
| `DataBackup.ReferenceAgrees` | src/utils/spikeInterface/src/spikeInterface.cpp:1257-1259 | the assertion against the reference memory cannot fail after recoverable stores |
| `Checkpoint.PopDropsNothing` | src/utils/spikeInterface/src/spikeInterface.cpp:1045-1051 | resolving a correctly predicted oldest branch drops an empty group: no logged store is lost |
| `Checkpoint.MissRestoresCheckpoint` | src/utils/spikeInterface/src/spikeInterface.cpp:1037-1047 | main: in every run, resolving a mispredicted oldest branch restores memory and registers of the moment that branch was fetched (the run was on the right path until then and has been on the wrong one since) and empties both logs, provided the stores since are recoverable |
| `Checkpoint.RightPathAlone` | src/utils/spikeInterface/src/spikeInterface.cpp:1037-1052 | main: in every run whose mispredictions came after undoable stores, memory and registers on the right path are those of a machine that knows no branches and executes the right-path stores and register updates alone |
| `Checkpoint.CheckpointsMatchBranches` | src/core/perfect_frontend/PerfectFrontend.cpp:94-110 | in every run there is one group and one snapshot per unresolved branch, in order, and a branch can always be resolved |
| `Checkpoint.Adapter.constructor` | src/utils/spikeInterface/src/spikeInterface.hpp:180-185 | a fresh adapter is the initial state of the checkpoint model |
| `Checkpoint.Adapter.FetchBranch` | src/core/perfect_frontend/PerfectFrontend.cpp:94-110 | fetching a branch on the object is the branch step of the model |
| `Checkpoint.Adapter.StoreData` | src/utils/spikeInterface/src/spikeInterface.cpp:996-1018 | a store on the object is the store step: on the wrong path the bytes it overwrites are logged first |
| `Checkpoint.Adapter.RegRollBack` | src/utils/spikeInterface/src/spikeInterface.cpp:1172-1195 | the registers are those of the oldest snapshot and no snapshot is left |
| `Checkpoint.Adapter.BranchResolve` | src/utils/spikeInterface/src/spikeInterface.cpp:1045-1052 | resolving the oldest branch on the object is the resolve step: drain and restore, or drop the oldest pair |
| `LoopQueues.SizeIsLength` | src/resources/LoopQueue.hpp:218-221 | rolling * depth - head + tail in 32-bit arithmetic is the number of elements |
| `LoopQueues.PushAppends` | src/resources/LoopQueue.hpp:270-277 | a push appends to the sequence the ring stands for |
| `LoopQueues.PopDropsFirst` | src/resources/LoopQueue.hpp:279-283 | a pop drops its first element |
| `LoopQueues.PopBackDropsLast` | src/resources/LoopQueue.hpp:285-289 | a pop_back drops its last element |
| `LoopQueues.RingRefinesSequence` | src/resources/LoopQueue.hpp:207-289 | main: over every run of push, pop, pop_back and clear the ring and a bounded sequence are possible together, have the same length and the same elements |
| `LoopQueues.TagsAreStable` | src/resources/LoopQueue.hpp:270-277 | main: the index a push returned holds its element as long as that survives, passes the validity test, and is no other survivor's |
| `LoopQueues.ValidityExactIff` | src/resources/LoopQueue.hpp:239-242 | isValid never rejects a live index, and is exact if and only if the ring is not wrapped or is full |
| `LoopQueues.ForwardExactIff` | src/resources/LoopQueue.hpp:291-311 | a begin-to-end loop visits exactly the live elements in order if and only if the end marker is not a live index (it is at depth 2^32 - 1 only) |
| `LoopQueues.BackwardExactIff` | src/resources/LoopQueue.hpp:363-372 | a loop back from the last element visits exactly the live elements in reverse under the same condition, except that an empty ring starts on a stale index |
| `LoopQueues.LoopQueue.constructor` | src/resources/LoopQueue.hpp:197-203 | an empty queue of the given depth |
| `LoopQueues.LoopQueue.Clear` | src/resources/LoopQueue.hpp:207-212 | empties the queue |
| `LoopQueues.LoopQueue.Count` | src/resources/LoopQueue.hpp:218-221 | computes the number of elements, and the assertion on the usage counter holds |
| `LoopQueues.LoopQueue.Push` | src/resources/LoopQueue.hpp:270-277 | appends, and returns the index of the new last element |
| `LoopQueues.LoopQueue.Pop` | src/resources/LoopQueue.hpp:279-283 | drops the first element |
| `LoopQueues.LoopQueue.PopBack` | src/resources/LoopQueue.hpp:285-289 | drops the last element |
| `LoopQueues.LoopQueue.Front` | src/resources/LoopQueue.hpp:252-254 | gives the first element of a non-empty queue |
| `LoopQueues.LoopQueue.Back` | src/resources/LoopQueue.hpp:256-259 | gives the last element of a non-empty queue |
| `LoopQueues.LoopQueue.Load` | src/resources/LoopQueue.hpp:244-250 | reads the element that has this index |
| `LoopQueues.LoopQueue.Store` | src/resources/LoopQueue.hpp:248-250 | changes the element that has this index and no other |
| `LoopQueues.LoopQueue.Elements` | src/resources/LoopQueue.hpp:313-319 | the loop over the queue visits exactly its elements in order |
| `RobUnit.StopIs` | src/core/abstract_backend/Rob.cpp:103-128 | what leaves is a run of finished, correctly predicted entries, and it stops only at the limit, the end or an entry that is not |
| `RobUnit.PopCountIs` | src/core/abstract_backend/Rob.cpp:103-128 | the number that leaves is the only one with that property |
| `RobUnit.BranchesAre` | src/core/abstract_backend/Rob.cpp:116-120 | the branches sent to the predictor are exactly those among what is sent, in order |
| `RobUnit.Rob.constructor` | src/core/abstract_backend/Rob.cpp:12-18 | an empty buffer of the given depth |
| `RobUnit.Rob.HandleFlush` | src/core/abstract_backend/Rob.cpp:58-63 | empties the buffer and grants its whole depth |
| `RobUnit.Rob.AllocateRob` | src/core/abstract_backend/Rob.cpp:65-75 | appends the group unfinished, whatever the slots held; each tag is the slot of its entry |
| `RobUnit.Rob.Finish` | src/core/abstract_backend/Rob.cpp:77-83 | marks exactly the entries in the tagged slots |
| `RobUnit.Rob.TryWakeupStore` | src/core/abstract_backend/Rob.cpp:85-96 | tells a store at the front once, and changes nothing else |
| `RobUnit.Rob.TakeFront` | src/core/abstract_backend/Rob.cpp:108-126 | the front leaves exactly when finished and correctly predicted |
| `RobUnit.Rob.SendFinished` | src/core/abstract_backend/Rob.cpp:103-128 | the loop sends the finished entries at the front, up to and including a mispredicted one, which alone stays |
| `RobUnit.Rob.Commit` | src/core/abstract_backend/Rob.cpp:98-177 | what is sent, what stays, the branches among it, the credit, the wakeup, the stall counter with its assertion, the stop at the requested number of instructions, and the flush request, which that stop swallows |
| `RobRun.CommitsInOrder` | src/core/abstract_backend/Rob.cpp:98-128 | main: in every run, flushes and late results included, instructions are sent in allocation order, and none twice except a mispredicted head awaiting its flush |
| `RobRun.CommitSendsAll` | src/core/abstract_backend/Rob.cpp:98-128 | in every run a commit sends all it can: it stops only at the width, the end, an unfinished entry, or a mispredicted branch, which is the last it sends and stays in front |
| `RobRun.StoresWokenIff` | src/core/abstract_backend/Rob.cpp:85-96 | main: over every run, exactly the stores that some commit left in front have been told so, each once and in order |
| `RobRun.CommitsAreAPrefix` | src/core/abstract_backend/Rob.cpp:98-128 | main: in a flush-free run what was sent is exactly a prefix of the allocation order, followed by nothing but the front again |
| `RobRun.SlotIsItsOwn` | src/core/abstract_backend/Rob.cpp:65-75 | in every run an entry is in the slot its instruction was told, however often the slot was reused |
| `RobRun.OwnResultsIff` | src/core/abstract_backend/Rob.cpp:77-83 | main: all along a run every entry carries the finish flag of its own instruction and nothing is sent before its own result, if and only if no result arrives for an instruction that has left the buffer while its slot waits for another |
| `RobRun.LiveResultsAreOwn` | src/core/abstract_backend/Rob.cpp:77-83 | so it holds where results come only for instructions still in the buffer |
| `RobRun.LateResultIsTaken` | src/core/abstract_backend/Rob.cpp:58-83 | a run at every depth in which a result that outlives a flush finishes another instruction, which is sent without its own result |
| `RobRefines.FinishRefines` | src/core/abstract_backend/Rob.cpp:77-83 | marking through the tag of an instruction in the buffer is marking by instruction number |
| `RobRefines.FinishGroupRefines` | src/core/abstract_backend/Rob.cpp:77-83 | marking a group through its tags is as many result steps of the pipeline model |
| `RobRefines.AllocateRefines` | src/core/abstract_backend/Rob.cpp:65-75 | allocating a group in the ring is as many arrival steps of the pipeline model |
| `RobRefines.CommitRefines` | src/core/abstract_backend/Rob.cpp:98-128 | one commit is as many single retirements of the pipeline model as entries leave, each of a finished front |
| `RobSteps.AllocateSteps` | src/core/abstract_backend/Rob.cpp:65-75 | allocating a group on the object is as many allocations of the machine of RobRun, and the tags are the machine's |
| `RobSteps.FinishSteps` | src/core/abstract_backend/Rob.cpp:77-83 | marking a group on the object is as many results of the machine, late ones included |
| `RobSteps.CommitStep` | src/core/abstract_backend/Rob.cpp:98-177 | a commit on the object is the commit of the machine; what is sent and which store is woken is what the machine records |
| `RobSteps.FlushStep` | src/core/abstract_backend/Rob.cpp:58-63 | a flush on the object is the flush of the machine |
| `RobSteps.RunContinues` | src/core/abstract_backend/Rob.cpp:54-177 | so what the object does continues a run of the machine |
| `RobSteps.RunTags` | src/core/abstract_backend/Rob.cpp:65-75 | every tag ever handed out is a slot of the ring |
| `Regions.SortedIsUnique` | src/utils/spikeInterface/src/spikeInterface.cpp:103-109 | the comparison orders regions completely: any sorted arrangement is the same |
| `Regions.MergeIsUnionIff` | src/utils/spikeInterface/src/spikeInterface.cpp:111-138 | regions overlap exactly when they share an address, and the merged region is their union if and only if that is not the whole space, whose size wraps to 0 |
| `Regions.MergeOverlapping` | src/utils/spikeInterface/src/spikeInterface.cpp:142-175 | main: for every list of non-empty 64-bit regions the result is sorted, shares no address and covers exactly the same addresses; regions are joined only where they overlap, neighbours that merely touch stay apart, and no input is cut unless overlapping regions link the whole space, which is split in two |
| `Regions.MergedIsUnique` | src/utils/spikeInterface/src/spikeInterface.cpp:142-175 | these properties determine the result: there is only one such list |
| `DispatchMap.TypeRoundTrip` | src/basic/GlobalParam.hpp:17-45 | a function type has a string exactly when it is not NO_TYPE, and reading the string gives it back |
| `DispatchMap.TypeReads` | src/basic/GlobalParam.hpp:17-29 | no other string reads as that type; anything unknown reads as no type |
| `DispatchMap.AtoiOfDecimal` | src/basic/GlobalParam.cpp:38-38 | atoi of a printed number is the number |
| `DispatchMap.AtoiReads` | src/basic/GlobalParam.cpp:38-38 | atoi of any string: blanks skipped, the sign obeyed, reading stopped at the first character that is no digit |
| `DispatchMap.ParseDispatchMap` | src/basic/GlobalParam.cpp:17-45 | the loop with its state variable computes the parser function on the token list |
| `DispatchMap.GenDispatchMap` | config/py_file/unit_config.py:121-138 | the loop prints every station with its width and all eight types |
| `DispatchMap.ParsedStation` | src/basic/GlobalParam.cpp:23-43 | one printed station, read from the start of an entry, adds exactly itself |
| `DispatchMap.DispatchRoundTripIff` | src/basic/GlobalParam.cpp:17-45 | main: parsing a printed list recovers every station's width and set of types if and only if no station is named like the separator and no two of one name differ |
| `DispatchMap.NothingExtra` | src/basic/GlobalParam.cpp:30-33 | the names in both parsed maps are exactly the printed ones |
| `DispatchMap.ParseWriteBackMap` | src/basic/GlobalParam.cpp:47-69 | the loop computes the parser function on the token list |
| `DispatchMap.GenWriteBackMap` | config/py_file/unit_config.py:140-145 | the loop prints every port with its width |
| `DispatchMap.WriteBackRoundTripIff` | src/basic/GlobalParam.cpp:47-69 | main: the same round trip for the write-back map |

## Left out

- Flush in dispatch, reservation station, function unit and write-back: the station zeroes its credit while the function unit returns only its queue size, so wakeup and credit claims are for flush-free runs.
- The cycle-level path of a flush through the flush manager, and the credit counters while it is under way.
- The credit link between function unit and write-back stage, which the source never consults when sending, and any bound by the dispatch stage's own issue width, which it never tests.
- Floating-point registers as a second register class, and the load and store queues beyond their credit counters.
- The value of an operand that was marked for forwarding, which the source never fills in.
- PerfectFrontend and RedirectPc as objects: fetching is a credit-guarded action of the pipeline, and their backup and prediction protocol is the event system of Checkpoint.
- Register snapshots are opaque values in Checkpoint, and the control and status register rollback is not modelled.
- Page alignment of memory regions, which the region type of the foreign simulator asserts.
- Numbers above 2147483647 in the printed maps, where atoi is undefined.
- Sharing of station entries between the queue and the dependency table is modelled by instruction numbers, not by pointers.
- Event scheduling inside the units other than the function unit: every schedule of theirs is covered, and progress is claimed for those that do not idle while something can be done, which their events, re-armed or woken by an arrival or a credit, are meant to ensure.
- Which lanes of a whole pipeline can in fact receive so much in one cycle: the exact condition on a unit's width is for one lane and any dispatcher; for the pipeline it is sufficient, and a run shows that it is needed.
- RenamingStage::RollBack_ (unused), BaseMemory, caches, MSHRs and the DRAM model (disabled), statistics, logging, ELF, JSON and trace loading.
