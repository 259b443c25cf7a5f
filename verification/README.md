# Verified model of CHIPSIM and its mapping optimizer

This project models, in Dafny, the parts of CHIPSIM that decide what a simulation computes, and proves
properties of them for every input and every run:

* **The scheduling engine** of the chiplet co-simulator. DNN models arrive over time, are mapped greedily
  onto chiplet capacity, and run every input through a graph of compute, activation and weight-loading
  phases while network contention re-times them. `PhaseSchedule` gives the meaning of one model's schedule
  as functions of values; `ScheduleInvariant`, `ScheduleRuns`, `ScheduleProgress`, `SchedulePredictions`,
  `ScheduleLiveness`, `ScanTraffic`, `LayerOrder` and `NetworkCalls` prove what every run keeps; `MappedModels`, `Orchestrator`, `Capacity`, `ModelMapping`,
  `WorkloadManagers` and `GlobalManagers` hold the classes that update their fields in place, each proved
  against those functions, with `Workload`, `InjectionPass`, `Ledger` and `SimulationStep` holding what is
  proved of the waiting list, the books and one step of the loop. `ScheduleBuild` and `PhaseOrder` build the phase graph, `Mapper`, `Partitioner`
  and `TrafficCalculator` do the allocation arithmetic, and `Mesh` is the chiplet network.
* **The thermal network**: the cells of each layer and the power they receive (`ThermalGrid`), conductances
  and the matrix (`ThermalNetwork`, `ThermalLaws`, `ThermalAssembly`), its compressed form (`ThermalSparse`,
  `ThermalPackage`), the temperature profiles it keeps still (`ThermalKernel`) and the grouping of results by chiplet (`ThermalRegroup`).
* **The optimizer agent's control graph** (`AgentGraph`, `AgentOutcomes`), with the language model, the validator's findings
  and the simulator's results arbitrary.

Times, percentages, powers and conductances are exact reals; capacity units, channels and packets are
integers. The network simulator, the compute backend and the size checks are arbitrary functions; the
network is assumed to answer with a positive latency, as the simulator itself demands. The clock advances
by one microsecond per iteration, as the code fixes it (CHIPSIM/src/sim/global_manager.py:183), so latencies
and numbers of iterations are measured in the same unit (`Phases.TIME_STEP`). Verify the project
with `dafny verify dfyconfig.toml`.

## Findings

* Completion times of *finished* phases never lie in the future, but the timing pass also writes predicted
  completion times into phases that may run, begun or not, and those may lie ahead. Exactly when they do, and
  what they are, is stated for every reachable state: a compute phase's is always its start plus its latency
  (`SchedulePredictions.ComputePredictionExact`), a transfer's is its start plus the latency known when the
  prediction was first written (`SchedulePredictions.PredictionIsFirst`). It is never refreshed, although a
  comment at CHIPSIM/src/sim/global_manager.py:735 says completion times follow latency changes: after a
  re-timing it is out of date (`SchedulePredictions.PredictionsGoStale`).
* The branch that skips a weight phase because its layers are already loaded is dead code for every schedule
  the weight scheduler builds (`ScheduleProgress.NothingToSkip`, `ScheduleProgress.StartsAreExact`); so are
  the configuration error for unguarded compute phases (`ScheduleRuns.NeverMisconfigured`) and the
  orchestrator's filter for empty traffic (`Orchestrator.ReportedHasTraffic`).
* In a workload with a repeated id the count of remaining entries never reaches zero, so the simulation loop
  never ends; with unique ids it is zero exactly when everything is injected
  (`WorkloadManagers.RepeatedIdNeverEnds`).
* The partitioner's closing complaint ("this should not happen") fires exactly when a layer has fewer output
  channels than chunks, or no chunks at all but some channels (`Partitioner.PartitionLayer`).
* The mapper raises an error instead of answering exactly when it gets to a layer, not the last, that asks for
  at most ten units and either needs nothing or finds no chiplet, among those it may use that have capacity left,
  able to host any of it: the layer is passed over without a chiplet, and the next has none to start from
  (`ModelMapping.PlaceLayers`, `ModelMapping.EndsOnce`). Two layers of a type without a size rule
  (one-dimensional convolution among them) are enough (`ModelMapping.TwoSmallLayersRaise`).
* Compressing the thermal matrix fails exactly when there is no node, or some node passes heat neither to
  another node nor to the surroundings (`ThermalPackage.ConnectAndCompress`); a stack with such a node is
  `ThermalPackage.OffsideIsolated`. The matrix itself is singular exactly when the heat of some node never gets
  to the surroundings (`ThermalKernel.SingularExactly`).
* The agent's stop after three failures in a row can fire only when the latest simulation itself failed; three
  iterations without improvement whose simulations succeed go unnoticed
  (`AgentGraph.EarlyStopNeedsFailedRun`, `AgentGraph.ThreeFailuresGoUnnoticed`).

## Model

| member | source | states |
|---|---|---|
| `Phases.ScaledTrafficBounds` | CHIPSIM/src/core/mapped_model.py:625-642 | scaled traffic of every positive entry stays between one packet and the original and never grows as the remaining fraction falls; `Phases.ScaledExactly` says how much it is |
| `Phases.ScaledTrafficNonzero` | CHIPSIM/src/core/mapped_model.py:625-650 | scaling neither creates nor loses traffic altogether: some packets are left if and only if there were some |
| `Phases.ScaledExactly` | CHIPSIM/src/core/mapped_model.py:625-642 | each entry that carries packets carries the remaining fraction of them, rounded to the nearest integer, the even one of two, but never to nothing; no other entry carries any |
| `Phases.TrafficIsPackets` | CHIPSIM/src/core/mapped_model.py:644-650 | there is traffic exactly when some chiplet sends another at least one packet |
| `ScanTraffic.ReportedCarriesRest` | CHIPSIM/src/core/mapped_model.py:447-522 | every transfer a scan reports at elapsed time e of latency d carries, entry by entry, the nearest integer to the part 1 - e/d of its traffic, at least one packet, and records e/d as done; without a latency it carries all its traffic |
| `PhaseSchedule.LaterVisitCarriesLess` | CHIPSIM/src/core/mapped_model.py:447-522 | of two scans of a running transfer with the same start and latency the later carries no more packets, entry by entry |
| `PhaseSchedule.FindCurrent` | CHIPSIM/src/core/mapped_model.py:526-540 | a phase that is found exists, is unfinished and has everything it waits for |
| `PhaseSchedule.FoundIsFirst` | CHIPSIM/src/core/mapped_model.py:526-540 | the phase found is the first in execution order that exists, is unfinished and does not wait, and none is found exactly when there is none |
| `ScheduleRuns.ReadyExactly` | CHIPSIM/src/core/mapped_model.py:542-604 | in a well-formed schedule a phase may run exactly when all phases it depends on that its input has are over and, when pipelined, so is the same phase of the input before |
| `PhaseSchedule.StartTimeIsLatest` | CHIPSIM/src/core/mapped_model.py:606-623 | the start time is one of the times the phase waits for and none of them is later |
| `PhaseSchedule.RetimedEnds` | CHIPSIM/src/core/mapped_model.py:652-718 | a transfer with its first latency lasts that long from its start, one that gets another ends so much later than now |
| `ScheduleInvariant.WeightsInPlace` | CHIPSIM/src/core/mapped_model.py:542-604 | a compute phase that passes the dependency check has its layer's weights in place before it may start: its own weight phase is over by then or, where the input has none, that of input 0 |
| `ScheduleInvariant.ScanKeepsInvariant` | CHIPSIM/src/core/mapped_model.py:378-524 | a scan for active phases keeps the whole invariant of a model and never revises finished work |
| `ScheduleInvariant.AnswerAllKeepsInvariant` | CHIPSIM/src/core/mapped_model.py:652-718 | so does taking in any network latencies for transfers under way |
| `ScheduleInvariant.TimeModelKeepsInvariant` | CHIPSIM/src/core/mapped_model.py:726-840 | so does deriving start and completion times |
| `ScheduleInvariant.InitialInvariant` | CHIPSIM/src/core/mapped_model.py:181-189 | a freshly mapped model satisfies the invariant |
| `ScheduleRuns.RunKeepsInvariant` | CHIPSIM/src/core/mapped_model.py:378-840 | after any interleaving of scans, answers, timing passes and clock advances the invariant holds, states have only moved forward and the clock has not run back |
| `ScheduleRuns.FinishedPhaseTimes` | CHIPSIM/src/core/mapped_model.py:378-524 | in every reachable state a finished phase began at the latest of its input's start, its dependencies' completions and, when pipelined, the same phase of the input before, lasted its latency, and ended in the past; a skipped weight phase of input 0 is the only exception and starts no earlier |
| `ScheduleRuns.WeightsBeforeCompute` | CHIPSIM/src/core/mapped_model.py:425-519 | in every reachable state a compute phase that runs or has run started no earlier than its own input's weight phase ended (input 0's where weights stay resident), and that phase is complete, for every input, pipelined or not |
| `ScheduleRuns.NeverMisconfigured` | CHIPSIM/src/core/mapped_model.py:569-594 | the configuration error is raised for no well-formed schedule |
| `ScheduleRuns.InputsFinishInOrder` | CHIPSIM/src/core/mapped_model.py:555-567 | once an input is finished by a time, every earlier input is finished by that time |
| `ScheduleRuns.CompletionTimesAscend` | CHIPSIM/src/core/mapped_model.py:814-830 | recorded completion times ascend with the input index |
| `ScheduleRuns.ModelCompletionIsFinal` | CHIPSIM/src/core/mapped_model.py:832-838 | a recorded model completion lies in the past, is the latest phase completion and means every phase of every input is over |
| `ScheduleRuns.NoDeadlock` | CHIPSIM/src/core/mapped_model.py:526-604 | an input that has started, is unfinished and has no unfinished predecessor always has a phase that may run |
| `LayerOrder.FirstLayerExact` | CHIPSIM/src/core/mapped_model.py:739-767 | the time that counts for a pipelined start is that of the first layer whose computation and activations, if any, are both over: one of the two ended then and neither later; there is none exactly when no layer is over |
| `LayerOrder.PipelinedStart` | CHIPSIM/src/core/mapped_model.py:739-770 | in every reachable state of a pipelined model, an input that has started did so when some layer of the input before was over |
| `LayerOrder.PipelinedStartIsFirst` | CHIPSIM/src/core/mapped_model.py:739-770 | for built schedules that is the first layer: the input starts at the completion of its activations, or of its computation in a one-layer model |
| `LayerOrder.PipelinedStartIsPrompt` | CHIPSIM/src/core/mapped_model.py:739-770 | a timing pass gives such an input a start if and only if some layer of the input before is over |
| `LayerOrder.LayersRunInOrder` | CHIPSIM/src/core/mapped_model.py:138-179 | in every reachable state of a built schedule a layer that has begun did so no earlier than the layer before had sent its activations, and these were sent no earlier than computed |
| `LayerOrder.WeightsLoadInOrder` | CHIPSIM/src/sim/scheduling/weight_scheduler.py:78-147 | loading just in time, a layer's weights are not loaded before the layer before it has sent its activations; loading all at once begins with the first input |
| `LayerOrder.BuiltIsLayered` | CHIPSIM/src/core/mapped_model.py:138-232 | both loading strategies build such chains of layers |
| `ScheduleProgress.StatesLeftDrops` | CHIPSIM/src/core/mapped_model.py:400-524 | the number of state changes still possible never grows and strictly falls with every change of state |
| `ScheduleProgress.NothingToSkip` | CHIPSIM/src/core/mapped_model.py:425-445 | with one weight phase per layer, a weight phase that has not started never finds its layers loaded |
| `ScheduleProgress.StartsAreExact` | CHIPSIM/src/core/mapped_model.py:606-623 | then every recorded start in every reachable state is exactly the latest time waited for |
| `SchedulePredictions.TimingPredicts` | CHIPSIM/src/core/mapped_model.py:788-812 | a timing pass writes start plus latency exactly for the phases that, in the state before it, may run, have a known latency, no recorded completion and an input with a start, on record or called for by the input before; so it leaves a completion ahead of the clock if and only if one was there or such a phase ends later |
| `SchedulePredictions.PassIsLocal` | CHIPSIM/src/core/mapped_model.py:726-840 | a timing pass in place, input after input and phase after phase, amounts to timing each against the state before the pass |
| `SchedulePredictions.WrittenOnce` | CHIPSIM/src/core/mapped_model.py:809-812 | over any run, a prediction that stands for an unfinished phase was written by one timing pass of the run and never revised |
| `SchedulePredictions.PredictionIsFirst` | CHIPSIM/src/core/mapped_model.py:809-812 | in every reachable state the prediction of an unfinished phase is its start plus the latency known at that pass: it lies ahead of the clock if and only if that sum does, and agrees with the latency now known if and only if that has not changed |
| `SchedulePredictions.ComputePredictionExact` | CHIPSIM/src/core/mapped_model.py:809-812 | in every reachable state a completion recorded for a compute phase is its start plus its latency, and lies ahead of the clock if and only if that moment has not come |
| `SchedulePredictions.PacketsOnlyFall` | CHIPSIM/src/core/mapped_model.py:447-522 | over any run, a transfer still running with the same latency carries no more packets from any chiplet to any other than it did before |
| `SchedulePredictions.PredictionsMayLieAhead` | CHIPSIM/src/core/mapped_model.py:809-812 | a run of a one-layer model, as either strategy builds it, in which a recorded completion time lies after the current time |
| `SchedulePredictions.PredictionsGoStale` | CHIPSIM/src/core/mapped_model.py:809-812 | a run of the same model in which a transfer is still under way after its recorded completion time, because a later answer prolonged it |
| `ScheduleLiveness.RoundForced` | CHIPSIM/src/sim/global_manager.py:721-772 | a round of an unfinished model in which nothing runs on past the present consults the network or changes a phase state |
| `ScheduleLiveness.EnoughRounds` | CHIPSIM/src/sim/global_manager.py:721-772 | more rounds than the remaining state changes and network calls can account for complete the model |
| `ScheduleLiveness.EveryModelFinishes` | CHIPSIM/src/sim/global_manager.py:721-772 | with latencies of at most m steps a mapped model is complete after more than (2 * phases * inputs + network calls) * (m + 1) rounds, however the network answers and whatever other models do; `GlobalManagers.GlobalManager.RunSteps` bounds the calls |
| `NetworkCalls.RoundAnswers` | CHIPSIM/src/sim/communication_orchestrator.py:60-98 | a round never reopens a transfer, and one in which the model needs the network settles at least one for good |
| `NetworkCalls.FreshUnanswered` | CHIPSIM/src/core/mapped_model.py:181-189 | a freshly mapped model has exactly its transfer instances unanswered |
| `NetworkCalls.CallsAtMost` | CHIPSIM/src/sim/communication_orchestrator.py:231-251 | a model on its own causes no more network simulations than it has unanswered transfers |
| `NetworkCalls.LoneModelFinishes` | CHIPSIM/src/sim/communication_orchestrator.py:60-98 | so a model on its own is complete after a number of rounds fixed in advance |
| `PhaseOrder.Visit` | CHIPSIM/src/core/mapped_model.py:240-247 | the depth-first visit ends on every graph, lists each visited phase once behind what was listed before, and on acyclic graphs keeps the list in dependency order |
| `PhaseOrder.SortPhases` | CHIPSIM/src/core/mapped_model.py:234-252 | the order is a permutation of the phase ids on every graph, and places each phase after its dependencies if and only if the graph is acyclic |
| `PhaseOrder.RankedIsAcyclic` | CHIPSIM/src/core/mapped_model.py:234-252 | a graph whose dependencies lower some rank has no cycle |
| `PhaseOrder.OrderedIsAcyclic` | CHIPSIM/src/core/mapped_model.py:234-252 | a graph that some listing puts in dependency order has no cycle |
| `ScheduleBuild.BuildDefaultSchedule` | CHIPSIM/src/core/mapped_model.py:138-179 | compute and activation phases alternate, each waiting for the one before, and the layer maps name exactly their phases |
| `ScheduleBuild.GenerateSchedule` | CHIPSIM/src/sim/scheduling/weight_scheduler.py:40-62 | one phase for all layers, or one phase for each layer |
| `ScheduleBuild.AddWeightPhases` | CHIPSIM/src/core/mapped_model.py:191-232 | weight phases are appended in schedule order and each layer is mapped to the last phase that lists it |
| `ScheduleBuild.ConfigureAllAtOnce` | CHIPSIM/src/sim/scheduling/weight_scheduler.py:78-109 | every compute phase waits for the combined weight phase as well, and nothing else changes |
| `ScheduleBuild.DelayWeights` | CHIPSIM/src/sim/scheduling/weight_scheduler.py:124-147 | each later layer's weight phase waits for the phase before its layer, and nothing else changes |
| `ScheduleBuild.GuardComputes` | CHIPSIM/src/sim/scheduling/weight_scheduler.py:149-157 | each layer's compute phase waits for its own weight phase, and nothing else changes |
| `ScheduleBuild.BuiltIsAcyclic` | CHIPSIM/src/sim/scheduling/weight_scheduler.py:64-159 | the phase graph of either loading strategy is acyclic for any number of layers |
| `ScheduleBuild.BuiltIsWellFormed` | CHIPSIM/src/core/mapped_model.py:138-232 | schedules of that shape load each layer by one phase only and, with at least one input, meet everything the run proofs ask for |
| `ScheduleBuild.BuildSchedule` | CHIPSIM/src/sim/global_manager.py:620-625 | building, wiring and sorting a model's phases yields such a schedule |
| `ScheduleBuild.TrafficKeepsForm` | CHIPSIM/src/core/mapped_model.py:256-291 | attaching computed traffic keeps it so |
| `MappedModels.MappedModel.constructor` | CHIPSIM/src/core/mapped_model.py:14-131 | a new model is in the initial state of a well-formed schedule whose layers form a chain, with its id, capacity and compute latencies; one without inputs has no phase instances |
| `MappedModels.MappedModel.DependenciesMet` | CHIPSIM/src/core/mapped_model.py:542-604 | the loops decide readiness as specified, the raised error included |
| `MappedModels.MappedModel.FindCurrentPhase` | CHIPSIM/src/core/mapped_model.py:526-540 | the scan of the execution order finds the specified phase |
| `MappedModels.MappedModel.PhaseStartTime` | CHIPSIM/src/core/mapped_model.py:606-623 | the running maximum is the specified start time |
| `MappedModels.MappedModel.VisitComputePhase` | CHIPSIM/src/core/mapped_model.py:400-420 | starting, advancing or finishing a compute phase in place matches the specification |
| `MappedModels.MappedModel.VisitTransfer` | CHIPSIM/src/core/mapped_model.py:447-522 | the same for a transfer, with scaled traffic and empty transfers; `ScanTraffic.ReportedCarriesRest` says what it then carries |
| `MappedModels.MappedModel.VisitCurrent` | CHIPSIM/src/core/mapped_model.py:397-522 | the same for whatever phase is current, with the skip of loaded weights and the marking of loaded layers |
| `MappedModels.MappedModel.GetActivePhases` | CHIPSIM/src/core/mapped_model.py:378-524 | the object's new state and the reported phases are those of the specified scan, the invariant is kept, and every transfer reported carries just the part of its traffic that the time left calls for |
| `MappedModels.MappedModel.UpdatePhaseLatency` | CHIPSIM/src/core/mapped_model.py:652-718 | a first latency is taken as it is, a later one is added to the time already spent, and nothing else changes |
| `MappedModels.MappedModel.ApplyAnswers` | CHIPSIM/src/sim/communication_orchestrator.py:415-453 | taking answers in one by one amounts to applying them together, and keeps the invariant |
| `MappedModels.MappedModel.FindFirstLayerDone` | CHIPSIM/src/core/mapped_model.py:739-767 | the loop finds the completion of the first finished layer, which `LayerOrder.FirstLayerExact` describes |
| `MappedModels.MappedModel.UpdateInputStart` | CHIPSIM/src/core/mapped_model.py:734-786 | an input's start is filled in from the input before it, once; `LayerOrder.PipelinedStart` says when that is |
| `MappedModels.MappedModel.TimePhases` | CHIPSIM/src/core/mapped_model.py:791-812 | timing phase by phase in place amounts to timing them all against the row as it was |
| `MappedModels.MappedModel.RecordCompletion` | CHIPSIM/src/core/mapped_model.py:814-830 | an input's completion is the latest of its phases', recorded once all are over |
| `MappedModels.MappedModel.RecordModelCompletion` | CHIPSIM/src/core/mapped_model.py:832-838 | the model's completion is the latest of its inputs', recorded once all have one; without inputs an error is raised and nothing recorded |
| `MappedModels.MappedModel.TimeAllInputs` | CHIPSIM/src/core/mapped_model.py:726-840 | a timing pass leaves the specified state, and raises an error if and only if the model has no inputs |
| `MappedModels.MappedModel.CalculatePhaseTiming` | CHIPSIM/src/core/mapped_model.py:726-840 | the object's new state is the specified one, the invariant is kept, and every input that can start or complete has been given its time |
| `MappedModels.MappedModel.IsFinished` | CHIPSIM/src/core/mapped_model.py:960-993 | the answer is yes if and only if a completion time is recorded, and then every phase is over |
| `Mapper.CrossbarsExact` | CHIPSIM/src/mapping/model_mapper.py:195-219 | the crossbars asked for are just enough: a grid of so many holds the weight matrix, each weight in as many cells as its bits need, and no smaller grid does |
| `Mapper.RequirementExact` | CHIPSIM/src/mapping/model_mapper.py:166-227 | on an in-memory chiplet a convolution, fully connected or attention layer needs just enough crossbars for its output channels by its filter size, outputs by inputs, or embedding squared; on a digital one its number of weights; other kinds need nothing |
| `ModelMapping.FullUnitsExact` | CHIPSIM/src/mapping/model_mapper.py:433 | every usable chiplet is asked for exactly that |
| `Mapper.PartialStep` | CHIPSIM/src/mapping/model_mapper.py:445-449 | using up a chiplet keeps the counted rest non-negative and within one unit of the share it stands for |
| `Mapper.Allocate` | CHIPSIM/src/mapping/model_mapper.py:424-460 | the outcome is that of trying the chiplets one by one until nothing is left; shares and the unplaced rest add up to 100, nothing goes negative, only candidates are used, and a chiplet without a share keeps its capacity; every chiplet with a share but the last is exhausted and holds exactly the share its units are worth, the last takes less than one unit too many; and the layer fails if and only if more than ten units are left |
| `Mapper.UnplacedShare` | CHIPSIM/src/mapping/model_mapper.py:424-454 | an accepted layer leaves at most (10 + k) units of work unplaced, k being the number of chiplets that hold a share of it and were used up for it |
| `Mapper.NoShareNothingDone` | CHIPSIM/src/mapping/model_mapper.py:424-454 | a layer gets no share at all if and only if everything it needs is left over |
| `Mapper.NoShareExactly` | CHIPSIM/src/mapping/model_mapper.py:424-454 | a layer gets no share if and only if it needs nothing or no candidate with capacity can host any of it; then all it needs is left and no capacity is taken |
| `Mapper.Unhostable` | CHIPSIM/src/mapping/model_mapper.py:424-460 | a layer that no chiplet can host gets no share and everything it needs is left over, so it is refused exactly when that is more than ten units |
| `Capacity.Chiplet.SetAvailableCrossbars` | CHIPSIM/src/core/chiplet.py:85-108 | values out of range are refused and change nothing |
| `Capacity.Chiplet.SetAvailableCapacityUnits` | CHIPSIM/src/core/chiplet.py:122-137 | the clamped value is stored and the setter never fails |
| `Capacity.ClampIsNearest` | CHIPSIM/src/core/chiplet.py:122-137 | the clamped value is the one in range nearest to what was asked for |
| `Capacity.System.GetAvailableCapacity` | CHIPSIM/src/core/system.py:223-237 | reads every chiplet's available units |
| `Capacity.System.UpdateCapacityAvailability` | CHIPSIM/src/core/system.py:239-257 | stores every value, exactly when all are in range and clamped otherwise |
| `ModelMapping.CandidatesEligible` | CHIPSIM/src/mapping/model_mapper.py:353-361 | candidates are exactly the preferred chiplets with capacity that are not I/O and are allowed, each once |
| `ModelMapping.GenerateMapping` | CHIPSIM/src/mapping/model_mapper.py:44-120 | all or nothing: a refusal or a raised error leaves the system unchanged, a success takes from each chiplet exactly what it reports as used, each placed layer is accounted for by what the layers before it left and by what it needs of each chiplet (`ModelMapping.FullUnitsExact`), and which of the four endings comes about is decided by the layers, the chiplets and the capacity, each by an exact condition |
| `ModelMapping.PlaceLayers` | CHIPSIM/src/mapping/model_mapper.py:44-120 | layers are placed in turn; the error is raised if and only if a layer before the last is reached that asks for at most ten units and has no host, memory is insufficient if and only if a layer is reached that leaves more than ten units over, no chiplet is available if and only if the first layer has no candidate, and otherwise all layers are placed as planned |
| `ModelMapping.EmptyLayers` | CHIPSIM/src/mapping/model_mapper.py:386-388 | a placed layer has no chiplet if and only if it needs nothing or no chiplet it may use can host any of it; it then asks for at most ten units, and a layer of a kind without a size rule always is such a layer |
| `ModelMapping.EndsOnce` | CHIPSIM/src/mapping/model_mapper.py:72-97 | a layer at which the mapper ends settles all at once whether it raises, runs out of memory or succeeds |
| `ModelMapping.TwoSmallLayersRaise` | CHIPSIM/src/mapping/model_mapper.py:386-388 | two layers of a kind without a size rule, five units each on one large chiplet, for which the error is raised |
| `Workload.DueOrder` | CHIPSIM/src/managers/workload_manager.py:100-124 | the due part of a sorted workload is sorted and has no repeated ids |
| `Workload.DueSplits` | CHIPSIM/src/managers/workload_manager.py:100-124 | what is due now is what was due before followed by what has just become due |
| `Workload.AdvanceKeepsQueue` | CHIPSIM/src/managers/workload_manager.py:100-169 | after every step the waiting list is exactly the part of the workload that is due and not injected, in order |
| `Workload.StepAges` | CHIPSIM/src/sim/global_manager.py:504-597 | in a step a waiting model gets in for good, or keeps its place; being overtaken costs it one failure and leaves it below the threshold |
| `Workload.OvertakingBounded` | CHIPSIM/src/sim/global_manager.py:504-597 | from any state, the overtaking steps still to come are bounded by the failures left to the threshold |
| `Workload.OvertakenRarely` | CHIPSIM/src/sim/global_manager.py:504-597 | from any state the waiting list can be in, a model is passed by later ones in fewer than max(1, threshold) steps of any run |
| `Workload.BoundedOvertaking` | CHIPSIM/src/sim/global_manager.py:504-597 | in any run, whatever can be mapped when, a model that is due is passed by later ones in fewer than max(1, threshold) steps |
| `WorkloadManagers.WorkloadManager.constructor` | CHIPSIM/src/managers/workload_manager.py:17-70 | the workload is sorted by time and, with unique ids, the manager is in a valid state with nothing waiting |
| `WorkloadManagers.WorkloadManager.IncrementFailureAge` | CHIPSIM/src/managers/workload_manager.py:72-83 | only the first waiting model with the id ages, by one |
| `WorkloadManagers.WorkloadManager.IsModelBlocking` | CHIPSIM/src/managers/workload_manager.py:85-98 | yes if and only if the first waiting model with the id has reached the threshold; with unique ids, if and only if any has |
| `WorkloadManagers.WorkloadManager.UpdateReadyModels` | CHIPSIM/src/managers/workload_manager.py:100-124 | for any workload, waiting models keep their place, and for every id that is due, not waiting and not injected exactly one of its due entries joins behind them; with unique ids and a clock that does not run back, these are the newly due models in order |
| `WorkloadManagers.WorkloadManager.GetModelsToInject` | CHIPSIM/src/managers/workload_manager.py:126-157 | the batch lists the waiting models in order of time; with unique ids the sort leaves the list as it is |
| `WorkloadManagers.WorkloadManager.MarkModelInjected` | CHIPSIM/src/managers/workload_manager.py:159-169 | the id is injected and leaves the waiting list |
| `WorkloadManagers.WorkloadManager.GetRemainingCount` | CHIPSIM/src/managers/workload_manager.py:171-177 | entries minus injected ids; with unique ids, the entries not injected, zero if and only if all are |
| `WorkloadManagers.RepeatedIdNeverEnds` | CHIPSIM/src/managers/workload_manager.py:171-177 | with a repeated id the count stays positive whatever has been injected; with unique ids it is zero exactly when all are injected |
| `InjectionPass.PassInjects` | CHIPSIM/src/sim/global_manager.py:596-597 | marking a model injected advances the pass by one |
| `InjectionPass.FailureDecides` | CHIPSIM/src/sim/global_manager.py:579-590 | ageing a model stops the pass exactly when it is then reported as blocking, and otherwise advances it |
| `Orchestrator.ReportedHasTraffic` | CHIPSIM/src/sim/communication_orchestrator.py:118-149 | a reported transfer always has packets left, so the check for empty traffic drops none |
| `Orchestrator.CollectedIsReported` | CHIPSIM/src/sim/communication_orchestrator.py:100-169 | the collected transfers are exactly those the scan reports, without repeats |
| `Orchestrator.CommunicationOrchestrator.CollectActivePhases` | CHIPSIM/src/sim/communication_orchestrator.py:100-169 | every model is scanned and its reported transfers are collected |
| `Orchestrator.CommunicationOrchestrator.NeedsInitialSimulation` | CHIPSIM/src/sim/communication_orchestrator.py:231-251 | yes if and only if some collected transfer has no latency |
| `Orchestrator.CommunicationOrchestrator.UpdatePhaseLatencies` | CHIPSIM/src/sim/communication_orchestrator.py:415-453 | every model takes in exactly its own answers |
| `Orchestrator.CommunicationOrchestrator.SimulateCommunication` | CHIPSIM/src/sim/communication_orchestrator.py:42-98 | the network is consulted, once, if and only if some model reports a transfer without latency, and every model ends in the state its answers dictate |
| `Ledger.RetirementConserves` | CHIPSIM/src/sim/global_manager.py:744-757 | retirement moves models from one list to the other and loses none |
| `Ledger.OpenDrops` | CHIPSIM/src/sim/communication_orchestrator.py:231-251 | over all models, a network simulation lowers the number of unanswered transfers |
| `Ledger.BooksGrow` | CHIPSIM/src/sim/global_manager.py:596-625 | a model that joins with the inputs its workload entry asks for keeps all transfers brought within the budget of the entries injected |
| `Ledger.WithinBudget` | CHIPSIM/src/sim/global_manager.py:487-625 | so the transfers of all models ever injected are within the budget of the workload, phases times inputs summed over its entries |
| `GlobalManagers.GlobalManager.constructor` | CHIPSIM/src/sim/global_manager.py:459-478 | an empty system with all capacity free satisfies the simulation's invariant |
| `GlobalManagers.GlobalManager.MapModel` | CHIPSIM/src/sim/global_manager.py:555-577 | mapping takes exactly the used capacity, or none at all |
| `GlobalManagers.GlobalManager.TryInject` | CHIPSIM/src/sim/global_manager.py:507-625 | a failed attempt changes nothing; a successful one adds a fresh model that holds exactly the capacity taken, and keeps the invariant |
| `GlobalManagers.GlobalManager.RecordFailure` | CHIPSIM/src/sim/global_manager.py:547-553 | a failure ages the model and reports whether it blocks |
| `GlobalManagers.GlobalManager.InjectModels` | CHIPSIM/src/sim/global_manager.py:487-625 | one pass advances the waiting list as specified and keeps the invariant |
| `GlobalManagers.GlobalManager.RecalculateTimes` | CHIPSIM/src/sim/global_manager.py:733-736 | every active model's times are derived |
| `GlobalManagers.GlobalManager.FreeCapacity` | CHIPSIM/src/sim/global_manager.py:761-765 | used units come back exactly; no clamp bites |
| `GlobalManagers.GlobalManager.RetireModels` | CHIPSIM/src/sim/global_manager.py:741-768 | exactly the complete models retire, in order, and available plus used capacity still equals the total on every chiplet |
| `GlobalManagers.GlobalManager.RunStep` | CHIPSIM/src/sim/global_manager.py:480-772 | one iteration keeps the invariant: capacity is conserved, active models are sound, retired ones finished, no injected model is lost and each runs the inputs its entry asks for, and network simulations plus unanswered transfers never exceed the transfers injected; every model then active plays exactly one round, the complete ones retire and the clock moves one step |
| `GlobalManagers.GlobalManager.RunSimulation` | CHIPSIM/src/sim/global_manager.py:459-772 | for any number of iterations the invariant holds; when the loop ends by itself every workload entry has retired with every phase of the number of inputs it asks for over, all capacity is free, and the network was simulated at most once per transfer |
| `GlobalManagers.GlobalManager.TrackedStep` | CHIPSIM/src/sim/global_manager.py:480-772 | in one iteration an active model retires, or what is left of its run, counted in its own state changes and in network simulations anyone may still cause, shrinks |
| `GlobalManagers.GlobalManager.RunSteps` | CHIPSIM/src/sim/global_manager.py:480-772 | with latencies of at most m steps, a model active now has retired after more than (2 * phases * inputs + B) * (m + 1) + m iterations, B being the workload's phases times inputs, whatever else is injected meanwhile and however the network answers; over the same iterations no model is passed by later ones in max(1, threshold) of them |
| `Partitioner.HandleTooFew` | CHIPSIM/src/mapping/layer_partitioner.py:128-148 | the first smallest chunk takes all missing channels |
| `Partitioner.DistributeRemaining` | CHIPSIM/src/mapping/layer_partitioner.py:182-205 | the others are cut largest first, none below one, by exactly what is left or down to one each |
| `Partitioner.HandleTooMany` | CHIPSIM/src/mapping/layer_partitioner.py:150-180 | the first largest chunk is cut first, others only once it is down to one, and the total comes out right |
| `Partitioner.AdjustForRounding` | CHIPSIM/src/mapping/layer_partitioner.py:96-126 | every chunk is at least one and the total is max(channels, chunks) |
| `Partitioner.PartitionLayer` | CHIPSIM/src/mapping/layer_partitioner.py:17-94 | for any shares the chunks begin at the integers nearest to their parts of the channels, at least one each, and are repaired only if these do not add up; the closing check complains exactly when there are more chunks than channels, or no chunks but some channels |
| `Partitioner.RepairIsExact` | CHIPSIM/src/mapping/layer_partitioner.py:96-126 | with no more chunks than channels the total is exact and no chunk takes more than the others leave |
| `TrafficCalculator.Merge` | CHIPSIM/src/core/traffic_calculator.py:191-203 | merging adds packets entry by entry |
| `TrafficCalculator.CombineTraffic` | CHIPSIM/src/core/traffic_calculator.py:187-205 | combined traffic is the pointwise sum of the layers' traffic |
| `TrafficCalculator.LayerTraffic` | CHIPSIM/src/core/traffic_calculator.py:213-308 | rejected if and only if an I/O chiplet is mapped; otherwise the traffic of all shares in order |
| `TrafficCalculator.RecordedFor` | CHIPSIM/src/core/traffic_calculator.py:269-301 | each chiplet's packets are recorded from the I/O chiplet that serves it and stay |
| `TrafficCalculator.RecordedEarlier` | CHIPSIM/src/core/traffic_calculator.py:269-301 | no other packets are recorded |
| `TrafficCalculator.EntryExact` | CHIPSIM/src/core/traffic_calculator.py:269-301 | a known chiplet with an I/O chiplet gets the packets its whole weights fill, none of them in part and at least one, and none at all if its share is less than one weight |
| `TrafficCalculator.PacketsExact` | CHIPSIM/src/core/traffic_calculator.py:283-284 | weights of so many bits make that number of packets and no other |
| `TrafficCalculator.TrafficAddsUp` | CHIPSIM/src/core/traffic_calculator.py:269-301 | on distinct chiplets no entry is overwritten: the packets of the traffic are those of all shares together |
| `TrafficCalculator.LayerPacketsBounded` | CHIPSIM/src/core/traffic_calculator.py:269-301 | on distinct chiplets the packets of the traffic computed for a layer are at most weights * bits / packet size, plus one per chiplet loaded |
| `Mesh.GenerateMesh` | CHIPSIM/helpers/helpers_GenerateAdjMatrix.py:23-54 | a one exactly where two cells are at Manhattan distance one |
| `Mesh.MeshIsSymmetric` | CHIPSIM/helpers/helpers_GenerateAdjMatrix.py:32-54 | the matrix is symmetric with a zero diagonal |
| `Mesh.BuildNetwork` | CHIPSIM/src/core/system.py:96-104 | the edges are exactly the ones above the diagonal, numbered from one |
| `Mesh.MeshNetwork` | CHIPSIM/src/core/system.py:96-104 | two chiplets are joined if and only if their cells are at distance one |
| `Mesh.ShortestIsManhattan` | CHIPSIM/src/core/system.py:321-351 | between any two chiplets some walk has the Manhattan distance as its length and none is shorter |
| `ThermalGrid.UniformTiles` | CHIPSIM/integrations/thermal_model/layer_class.py:79-91 | cells of one length abut from end to end, and have positive length if and only if the span has |
| `ThermalGrid.MidpointsTile` | CHIPSIM/integrations/thermal_model/layer_class.py:43-54 | midpoint cells abut for any node positions, and all have positive length if and only if the midpoints increase across the span |
| `ThermalGrid.CutHalfway` | CHIPSIM/integrations/thermal_model/layer_class.py:43-54 | neighbouring cells meet half-way between their nodes |
| `ThermalGrid.EachPointOnce` | CHIPSIM/integrations/thermal_model/layer_class.py:79-129 | every point of a tiled span lies in exactly one cell and no cell reaches beyond |
| `ThermalGrid.OverlapOfTiles` | CHIPSIM/integrations/thermal_model/common.py:30-32 | the cells of a span cover just the part of a block that lies in it |
| `ThermalGrid.LayOut` | CHIPSIM/integrations/thermal_model/layer_class.py:148-223 | laying out chiplet by chiplet puts each a pitch after the one before |
| `ThermalGrid.ChipletsCover` | CHIPSIM/integrations/thermal_model/layer_class.py:148-223 | the cells of all chiplets together cover a block inside one of them exactly |
| `ThermalGrid.GaplessCover` | CHIPSIM/integrations/thermal_model/layer_class.py:148-223 | without gaps they cover just the part of any block that lies between the first chiplet's start and the last one's end |
| `ThermalGrid.CreateNodes` | CHIPSIM/integrations/thermal_model/layer_class.py:82-98 | node (i, j) is the product of cell i along x and cell j along y, at index i * columns + j |
| `ThermalGrid.GridArea` | CHIPSIM/integrations/thermal_model/common.py:25-28 | over a grid, overlap areas add up to the product of the overlaps along the axes |
| `ThermalGrid.PowerConserved` | CHIPSIM/integrations/thermal_model/layer_class.py:405-432 | when the nodes cover the whole area of each block, their powers add up to the total block power at every step |
| `ThermalGrid.BlockFullySpread` | CHIPSIM/integrations/thermal_model/layer_class.py:405-432 | a block's power arrives in full if and only if the nodes cover its whole area or it has none |
| `ThermalGrid.LayerPowerConserved` | CHIPSIM/integrations/thermal_model/layer_class.py:405-432 | so power is conserved in a layer for blocks inside a chiplet, and for blocks anywhere in rows of chiplets without gaps |
| `ThermalGrid.GetPower` | CHIPSIM/integrations/thermal_model/layer_class.py:405-437 | the array holds each node's power; it is given up if and only if some node is not covered to within 0.0001 |
| `ThermalGrid.UncoveredIsRest` | CHIPSIM/integrations/thermal_model/layer_class.py:405-437 | what counts as uncovered is the node's area less all overlaps |
| `ThermalNetwork.MakeNode` | CHIPSIM/integrations/thermal_model/node_class.py:28-78 | positive sizes and conductivities give positive conductances and a film conductance that is not negative |
| `ThermalNetwork.Film` | CHIPSIM/integrations/thermal_model/layer_class.py:344-349 | the film conductance lies between zero and the node's own |
| `ThermalNetwork.LateralSymmetric` | CHIPSIM/integrations/thermal_model/node_class.py:94-119 | two nodes of a layer see the same conductance from either side, never negative; `ThermalLaws.SideEntries` says which |
| `ThermalNetwork.VerticalNonNegative` | CHIPSIM/integrations/thermal_model/package_class.py:172-187 | nodes of stacked layers are coupled if and only if they share area; `ThermalLaws.LayerEntries` says how much |
| `ThermalLaws.LateralLawY` | CHIPSIM/integrations/thermal_model/node_class.py:94-109 | for neighbours along y, conductance * 500 * (length / (ky * thickness), summed over both) is the length they share |
| `ThermalLaws.LateralLawX` | CHIPSIM/integrations/thermal_model/node_class.py:111-119 | the same along x, for nodes that do not meet along y |
| `ThermalLaws.LateralLawApart` | CHIPSIM/integrations/thermal_model/node_class.py:121-125 | nodes that meet along neither axis are not coupled |
| `ThermalLaws.VerticalLaw` | CHIPSIM/integrations/thermal_model/package_class.py:172-187 | for stacked nodes, conductance * 500 * (thickness / kz, summed over both) is the area they share |
| `ThermalLaws.FilmLaw` | CHIPSIM/integrations/thermal_model/layer_class.py:344-349 | for an exposed face, film conductance * (1000000 / h + 500 * thickness / kz) is the node's area; inner nodes have none |
| `ThermalLaws.SideEntries` | CHIPSIM/integrations/thermal_model/package_class.py:94-152 | the matrix entry of two nodes of a layer obeys these laws, from their sizes and materials alone |
| `ThermalLaws.LayerEntries` | CHIPSIM/integrations/thermal_model/package_class.py:94-152 | so does the entry of two nodes of layers one on top of the other; entries of other layers are zero |
| `ThermalLaws.RowEntries` | CHIPSIM/integrations/thermal_model/package_class.py:148-152 | and a row adds up to the film conductance of its node |
| `ThermalNetwork.LaplacianSymmetric` | CHIPSIM/integrations/thermal_model/package_class.py:94-152 | the matrix is symmetric and not positive off its diagonal |
| `ThermalNetwork.RowsSumToFilm` | CHIPSIM/integrations/thermal_model/package_class.py:148-152 | each row adds up to the node's convective conductance |
| `ThermalNetwork.HeatBalance` | CHIPSIM/integrations/thermal_model/package_class.py:94-152 | for every temperature vector internal heat flows cancel and the package loses what its exposed faces pass |
| `ThermalNetwork.FormIsSquares` | CHIPSIM/integrations/thermal_model/package_class.py:94-152 | the quadratic form of the matrix is a sum of squared temperature differences and film terms |
| `ThermalNetwork.Dissipative` | CHIPSIM/integrations/thermal_model/package_class.py:94-152 | the matrix is positive semidefinite |
| `ThermalKernel.FormVanishes` | CHIPSIM/integrations/thermal_model/package_class.py:94-152 | the quadratic form is zero exactly for profiles that are equal across touching nodes and zero at exposed ones |
| `ThermalKernel.StillExactly` | CHIPSIM/integrations/thermal_model/package_class.py:94-152 | without sources exactly these profiles keep still |
| `ThermalKernel.SingularExactly` | CHIPSIM/integrations/thermal_model/package_class.py:94-152 | the matrix is singular if and only if the heat of some node never gets to the surroundings |
| `ThermalKernel.SteadyStateUnique` | CHIPSIM/integrations/thermal_model/package_class.py:94-152 | when every node's heat gets out, the heat put in decides the temperatures at rest |
| `ThermalKernel.IsolatedIsSingular` | CHIPSIM/integrations/thermal_model/package_class.py:162-166 | a stack with an isolated node has a singular matrix |
| `ThermalNetwork.RowHasEntry` | CHIPSIM/integrations/thermal_model/package_class.py:162-165 | a row has a non-zero entry if and only if its node touches another or the surroundings |
| `ThermalAssembly.ConnectLayer` | CHIPSIM/integrations/thermal_model/layer_class.py:351-357 | the nested loops fill in the pairwise conductances of a layer |
| `ThermalAssembly.ConnectLayers` | CHIPSIM/integrations/thermal_model/package_class.py:172-187 | the nested loops fill in the conductances between two layers |
| `ThermalAssembly.FillRow` | CHIPSIM/integrations/thermal_model/package_class.py:128-144 | the film column and the three block writes complete a row: it faces no other layer |
| `ThermalAssembly.Assemble` | CHIPSIM/integrations/thermal_model/package_class.py:61-152 | for any stack of at least two layers the assembled array is the matrix the theorems are about, whose entries `ThermalLaws` gives in terms of sizes and materials |
| `ThermalSparse.NonZerosExist` | CHIPSIM/integrations/thermal_model/package_class.py:162-163 | a row has stored columns if and only if it has a non-zero entry |
| `ThermalSparse.StoredProduct` | CHIPSIM/integrations/thermal_model/package_class.py:162-163 | the stored entries alone give the row's product with every vector |
| `ThermalSparse.PaddedProduct` | CHIPSIM/integrations/thermal_model/package_class.py:164-166 | padding with zero values at the last column changes no product |
| `ThermalSparse.Compress` | CHIPSIM/integrations/thermal_model/package_class.py:162-170 | succeeds if and only if there are rows and each has a non-zero entry; then every row is stored padded to the widest |
| `ThermalSparse.CompressedProduct` | CHIPSIM/integrations/thermal_model/package_class.py:162-170 | row by row the compressed arrays multiply every vector as the matrix does |
| `ThermalPackage.ConnectAndCompress` | CHIPSIM/integrations/thermal_model/package_class.py:61-170 | compressing the assembled matrix succeeds if and only if there is a node and each passes heat to another or to the surroundings; then the compressed rows are those of the matrix |
| `ThermalPackage.OffsideIsolated` | CHIPSIM/integrations/thermal_model/package_class.py:162-166 | a stack whose middle node does neither, so that its matrix cannot be compressed |
| `ThermalRegroup.SourceIndex` | CHIPSIM/integrations/thermal_model/layer_class.py:484-486 | the index read by the loop is the node's grid position |
| `ThermalRegroup.Regroup` | CHIPSIM/integrations/thermal_model/layer_class.py:474-487 | the four loops put at every grouped position the temperature of the node that belongs there |
| `ThermalRegroup.RegroupIsBijection` | CHIPSIM/integrations/thermal_model/layer_class.py:474-487 | every node's temperature lands in exactly one place |
| `ThermalRegroup.SliceIsChiplet` | CHIPSIM/integrations/thermal_model/layer_class.py:489-496 | a consecutive slice holds exactly the nodes of one chiplet |
| `ThermalRegroup.SliceByCoordinates` | CHIPSIM/integrations/thermal_model/layer_class.py:489-496 | namely those whose grid coordinates lie in it |
| `ThermalRegroup.TwoPassSort` | CHIPSIM/integrations/thermal_model/power_class.py:80-82 | sorting by y and then stably by x orders by (x, y) and keeps every chiplet |
| `ThermalRegroup.SlicesMatchChiplets` | CHIPSIM/integrations/thermal_model/layer_class.py:489-496 | in whatever order a grid's chiplets are listed, the sorts put each where its own slice is |
| `Sorting.StableSort` | CHIPSIM/integrations/thermal_model/power_class.py:80-82 | a stable sort keeps an earlier order among equals and permutes its input |
| `Sorting.SortedStays` | CHIPSIM/src/managers/workload_manager.py:148-149 | a list already in order is left as it is |
| `AgentGraph.CountTrailingFailures` | chipsim-mapping-optimizer/agent.py:886-892 | the loop counts the failures at the end of the history |
| `AgentGraph.NeverCrashes` | chipsim-mapping-optimizer/agent.py:420-427 | whatever the validator accepts has a function name the injector can use |
| `AgentGraph.StepsLeftDrops` | chipsim-mapping-optimizer/agent.py:920-990 | every step of a run that has not ended lowers a natural-number measure |
| `AgentGraph.RunsEnd` | chipsim-mapping-optimizer/agent.py:920-990 | every run ends within 1 + I * (R * (2 * V + 2) + 2) steps, limits taken as at least one, whatever the outside world answers |
| `AgentGraph.BoundedRequests` | chipsim-mapping-optimizer/agent.py:926-941 | at most I * R * V proposals and I * R simulator runs |
| `AgentOutcomes.NextNode` | chipsim-mapping-optimizer/agent.py:920-990 | which node comes next, from the answers so far: a rejected proposal ends the run if and only if it is the last of max(1, V) tries since there were new ones, a failed simulation ends the iteration if and only if it is the last of max(1, R), and the run ends with the last iteration or by the early stop |
| `AgentOutcomes.RejectedRun` | chipsim-mapping-optimizer/agent.py:926-931 | a run whose proposals are all rejected makes exactly max(1, V) of them, simulates nothing and ends |
| `AgentOutcomes.FailedIteration` | chipsim-mapping-optimizer/agent.py:934-941 | an iteration whose simulations all fail runs the simulator exactly max(1, R) times and is then evaluated |
| `AgentOutcomes.BoundsAttained` | chipsim-mapping-optimizer/agent.py:926-941 | for any limits some run makes exactly I * R * V proposals and I * R simulator runs |
| `AgentOutcomes.AcceptedExactly` | chipsim-mapping-optimizer/agent.py:420-427 | a proposal passes exactly when it parses, its function's name begins with an underscore and is more than underscores, and nothing else is wrong |
| `AgentOutcomes.HistoryIsMarks` | chipsim-mapping-optimizer/agent.py:834-897 | the history holds one mark for each simulation and each evaluation, in order |
| `AgentGraph.BestIsSmallest` | chipsim-mapping-optimizer/agent.py:834-882 | the kept best latency is the minimum of the baseline and all evaluated non-zero latencies; without a usable baseline it never changes |
| `AgentGraph.EarlyStopNeedsFailedRun` | chipsim-mapping-optimizer/agent.py:884-897 | the early stop fires exactly when iterations remain, nothing improved, the latest run failed and the history already ends in two failures |
| `AgentGraph.ThreeFailuresGoUnnoticed` | chipsim-mapping-optimizer/agent.py:884-897 | a run that goes on after three iterations in a row without improvement |

## Left out

- The network, power and compute simulators (Garnet, DSENT, CIMLoop), their file handling, statistics and cache: foreign processes, here arbitrary functions.
- The distance and preference keys by which a layer's candidate chiplets are sorted: any order of preference is allowed, so the results hold for the code's; the case of a chiplet without network connections and the random mapper are not modelled.
- Layer-level timings, latency histories, energy and co-active traffic records: bookkeeping that nothing in the schedule reads.
- The flag by which the timing pass reports whether it changed anything: no caller uses it.
- Termination of the simulation loop: a model that passes the coarse size check may never map, so the loop is modelled for any number of iterations; how long a mapped model stays active is bounded.
- Reading workload and configuration files, command-line handling, results directories, plotting and logging.
- Activation traffic amounts and the choice of the closest I/O chiplet: traffic and the serving I/O chiplet are arbitrary here.
- The thermal solver, tuned capacitances, state-space generation, and heterogeneous chiplet grids, whose cells come from the power grid file; the assembly and compression results hold for any nodes.
- Partitioned multiply-accumulate counts and the names of chunks: only the channel split is repaired.
- The agent's prompts, code injection into the mapper file, the syntax checks beyond the function name, the metrics parser and the graph library's recursion limit.
- Rounding of floating-point numbers.
- GlobalManagers.GlobalManager.constructor: asks that every workload entry has at least one input; a model without inputs can be constructed, but its first timing pass raises an error (MappedModels.MappedModel.TimeAllInputs), with which the simulation ends.
- GlobalManagers.GlobalManager.TryInject: a fatal error that exits the process is modelled as an outcome after which nothing further is claimed than that the invariant holds.
