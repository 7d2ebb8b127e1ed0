# Bully election simulator — a Dafny model

This project models the core of a browser simulator of the Bully leader-election
algorithm. The simulator shows a ring of numbered processes. The user can fail and
recover processes, start an election, reconfigure the set of node ids, and start a
heartbeat loop in which the leader pings its followers and a missing leader triggers
a new election.

The model follows the source's own structure, one module per core file:

- `Types` holds the records the simulator passes around: `Process`, `Message`,
  `LogEntry` and `SimulatorState`.
- `AnimationConfig` holds the per-message-type durations, speeds and priorities, and
  the lookup `GetMessageConfig`.
- `BullyAlgorithm` holds the stateless rules of the algorithm. They cover who an
  initiator challenges, how a challenged process answers, who announces itself, and
  which heartbeats a leader sends. Each is a function on the list of processes.
- `ElectionOrchestrator` is a class holding the map of pending elections. Its
  methods schedule the staggered ELECTION sends and the 4-second election timeout,
  and react when those timers fire. Its callbacks are returned as a list of
  `Effect`s (emit a message, write a log line, complete the election with a leader).
  The provider turns each effect into the dispatches the source performs.
- `SimulatorReducer` holds the reducer of the simulator state, action by action,
  and the invariant it keeps: the roster's ids ascend strictly, as
  `initializeProcesses` builds them, and a process marked leader is the recorded
  leader, so at most one is marked.
- `SimulatorContext` holds the provider's operations. Each is first stated as a
  function of the state it sees, for example `AfterToggle` or `AfterStart`. The
  `Simulator` class then performs it on its own state next to the orchestrator and
  the timer queue, and is proved to reach exactly that state. The heartbeat interval
  is modelled as one run of its callback (`HeartbeatTick`). The heartbeat effect,
  which logs that monitoring started or stopped, is its own step (`HeartbeatEffect`).
  It runs on mount and after every commit that changes its dependencies.
- `NodeConfiguration` holds the configuration panel: parsing the comma-separated id
  list, the count field, reset and apply. The `Panel` class holds the panel's two
  text fields.

Helper modules:

- `Text` holds decimal rendering, `trim`, `parseInt`, `split` and `join`.
- `IntSeq` holds sorting, de-duplication, maximum and minimum on integer lists.
- `EventLoop` stands in for the JavaScript runtime. It has a virtual clock, a
  counter that replaces the random parts of generated ids, and a queue of pending
  `setTimeout` callbacks that can be cancelled. `Step` fires the earliest one, the
  first of equal deadlines first.

## Model

| member | source | states |
|---|---|---|
| AnimationConfig.GetMessageConfig | src/config/AnimationConfig.ts:54-95 | every duration is positive; the priority is the heartbeat priority exactly when the message is a heartbeat; heartbeats move at twice the base speed, other messages at the base speed |
| AnimationConfig.HeartbeatConfig | src/config/AnimationConfig.ts:61-67 | a heartbeat of any type lasts 1000 ms with priority 1 |
| AnimationConfig.ProtocolConfigTable | src/config/AnimationConfig.ts:69-87 | ELECTION 3000 ms priority 3, OK 2500 ms priority 2, COORDINATOR 2000 ms priority 2 |
| AnimationConfig.PriorityOrder | src/config/AnimationConfig.ts:46-51 | an ELECTION outranks every other kind; a heartbeat ranks below every protocol message |
| AnimationConfig.HeartbeatIsShortest | src/config/AnimationConfig.ts:37-43 | a heartbeat is shorter than any protocol message |
| AnimationConfig.HeartbeatSpeedDoubled | src/config/AnimationConfig.ts:64 | the heartbeat speed is twice the speed of the same kind sent normally |
| BullyAlgorithm.Select | src/services/BullyAlgorithm.ts:13 | the filtered list holds exactly the processes of the input that pass the filter, and is no longer than it |
| BullyAlgorithm.SelectKeepsOrder | src/services/BullyAlgorithm.ts:13 | filtering a roster with strictly ascending ids keeps it strictly ascending |
| BullyAlgorithm.Find | src/services/SimulatorContext.tsx:283 | `find` by id returns a member with that id, and returns nothing exactly when no process has it |
| BullyAlgorithm.FindActive | src/services/BullyAlgorithm.ts:10 | finds a process exactly when an active process has the id, and what it finds is active with that id |
| BullyAlgorithm.CreateMessage | src/services/BullyAlgorithm.ts:76-92 | the message carries the given type, endpoints and clock, starts at progress 0, and takes duration, speed and priority from the animation configuration |
| BullyAlgorithm.MessagesTo | src/services/BullyAlgorithm.ts:15 | one message per target, in order, each addressed to its target |
| BullyAlgorithm.GetElectionTargets | src/services/BullyAlgorithm.ts:106-108 | exactly the active processes with a higher id |
| BullyAlgorithm.StartElection | src/services/BullyAlgorithm.ts:9-16 | an inactive initiator sends nothing; an active one sends one ELECTION per higher active process, each from itself to a higher active id |
| BullyAlgorithm.StartElectionReachesAllHigher | src/services/BullyAlgorithm.ts:13-15 | every higher active process receives an ELECTION, in ascending order of id on a sorted roster |
| BullyAlgorithm.HandleElectionMessage | src/services/BullyAlgorithm.ts:22-36 | an inactive receiver answers nothing; an active one answers OK to the sender first, then starts its own election |
| BullyAlgorithm.AnnounceCoordinator | src/services/BullyAlgorithm.ts:51-60 | an unknown or inactive leader announces nothing; an active one sends one COORDINATOR per other active process, in roster order, and none to itself |
| BullyAlgorithm.AnnouncementReachesAllOthers | src/services/BullyAlgorithm.ts:55-59 | every other active process receives the announcement; on a roster sorted by id the recipients ascend, so each hears it once |
| BullyAlgorithm.FindHighestActiveProcess | src/services/BullyAlgorithm.ts:66-71 | -1 when no process is active; otherwise an active id no smaller than any active id |
| BullyAlgorithm.HighestActiveSentinel | src/services/BullyAlgorithm.ts:66-71 | with positive ids, the result is -1 exactly when no process is active |
| BullyAlgorithm.ShouldBecomeLeader | src/services/BullyAlgorithm.ts:98-101 | true exactly when no active process has a higher id |
| BullyAlgorithm.SelfProclaimIffNoElection | src/services/BullyAlgorithm.ts:98-108 | an active process should lead exactly when its election sends nothing, when it has no targets, and when it is the highest active process |
| BullyAlgorithm.CanParticipateInElection | src/services/BullyAlgorithm.ts:113-116 | an unknown id cannot take part; on unique ids, taking part means being active |
| BullyAlgorithm.CreateHeartbeatMessages | src/services/BullyAlgorithm.ts:121-133 | every heartbeat lasts 1000 ms with priority 1 |
| BullyAlgorithm.HeartbeatsMirrorAnnouncement | src/services/BullyAlgorithm.ts:121-133 | heartbeats are the coordinator announcement with the same endpoints, "heartbeat-" prefixed ids and the heartbeat timing |
| ElectionOrchestrator.Staggered | src/services/ElectionOrchestrator.ts:36-41 | one send timer per message, the i-th due i steps after now, none of them an election timeout |
| ElectionOrchestrator.ResponseEffects | src/services/ElectionOrchestrator.ts:63-73 | an OK or ELECTION response is emitted and logged; anything else does nothing |
| ElectionOrchestrator.FindOk | src/services/ElectionOrchestrator.ts:76 | finds a response exactly when one is an OK, and returns the first OK |
| ElectionOrchestrator.RestartIffReceiverActive | src/services/ElectionOrchestrator.ts:61-82 | the receiver answers with an OK, and so restarts its own election, exactly when it is active |
| ElectionOrchestrator.TracksCancel | src/services/ElectionOrchestrator.ts:132-138 | cancelling an election's timeout keeps the pending map and the timer queue in agreement |
| ElectionOrchestrator.TracksAppendTimeout | src/services/ElectionOrchestrator.ts:44-48 | recording a new election timeout keeps the map and the queue in agreement |
| ElectionOrchestrator.TracksTakeTimeout | src/services/ElectionOrchestrator.ts:113-119 | firing an election timeout and dropping its entry keeps the map and the queue in agreement |
| ElectionOrchestrator.ElectionOrchestrator.constructor | src/services/ElectionOrchestrator.ts:8-11 | starts with no pending election |
| ElectionOrchestrator.ElectionOrchestrator.ClearElection | src/services/ElectionOrchestrator.ts:132-138 | removes the process's entry and cancels exactly its timeout; nothing else changes |
| ElectionOrchestrator.ElectionOrchestrator.Schedule | src/services/ElectionOrchestrator.ts:36-41 | appends the staggered send timers and nothing else |
| ElectionOrchestrator.ElectionOrchestrator.InitiateElection | src/services/ElectionOrchestrator.ts:16-49 | clears the previous election; with no higher active process, completes at once with the initiator as leader; otherwise schedules the sends 200 ms apart and a 4000 ms timeout recorded as pending |
| ElectionOrchestrator.ElectionOrchestrator.HandleElectionMessage | src/services/ElectionOrchestrator.ts:54-83 | schedules the responses 150 ms apart, and a restart of the receiver's election after 100 ms exactly when the receiver is active |
| ElectionOrchestrator.ElectionOrchestrator.HandleOkMessage | src/services/ElectionOrchestrator.ts:88-96 | a pending receiver loses its entry and its timeout and logs the OK; otherwise nothing happens |
| ElectionOrchestrator.ElectionOrchestrator.HandleCoordinatorMessage | src/services/ElectionOrchestrator.ts:101-108 | logs the acknowledgement and completes the election with the sender as leader |
| ElectionOrchestrator.ElectionOrchestrator.HandleElectionTimeout | src/services/ElectionOrchestrator.ts:113-127 | drops the entry, declares the process leader and completes with it |
| ElectionOrchestrator.ElectionOrchestrator.ClearAllElections | src/services/ElectionOrchestrator.ts:143-148 | empties the map and cancels exactly the election timeouts; other timers stay |
| ElectionOrchestrator.ElectionOrchestrator.Fire | src/services/ElectionOrchestrator.ts:36-82 | running the earliest timer's callback: a send is emitted and logged, a response per its type, a timeout declares the leader, a restart re-initiates the election on the remaining timers, as `InitiateElection` states |
| EventLoop.Loop.SetTimeout | src/services/ElectionOrchestrator.ts:44-46 | appends a timer due after the delay under a fresh handle |
| EventLoop.Loop.ClearTimeout | src/services/ElectionOrchestrator.ts:135 | removes exactly the timers with that handle |
| Text.ParseIntOfNatToString | src/components/NodeConfiguration.tsx:14 | `parseInt(s.trim())` of a decimal rendering, with leading blanks, gives back the number |
| Text.JoinSplit | src/components/NodeConfiguration.tsx:12-13 | joining the split pieces with the separator gives back the text |
| IntSeq.SortSpec | src/components/NodeConfiguration.tsx:16 | the numeric sort is ascending and a permutation of its input |
| IntSeq.SortedPermutationUnique | src/components/NodeConfiguration.tsx:16 | two ascending permutations of the same list are equal |
| IntSeq.Dedupe | src/components/NodeConfiguration.tsx:19 | `[...new Set(xs)]` has no repeats and the same members |
| IntSeq.DedupeOfSorted | src/components/NodeConfiguration.tsx:16-19 | de-duplicating an ascending list gives a strictly ascending one |
| IntSeq.Max | src/services/SimulatorContext.tsx:54 | `Math.max` is a member no smaller than any element |
| IntSeq.Min | src/services/SimulatorContext.tsx:237 | `Math.min` is a member no larger than any element |
| SimulatorReducer.Roster | src/services/SimulatorContext.tsx:56-62 | one active process per id, in order, labelled "P"+id, leading exactly when its id is the highest |
| SimulatorReducer.InitializeProcessesShape | src/services/SimulatorContext.tsx:51-63 | the roster's ids are the sorted input, all active and labelled, and the leader marks are on the maximum |
| SimulatorReducer.InitializeProcessesSpec | src/services/SimulatorContext.tsx:51-63 | ids ascending and a permutation of the input; a process leads exactly when no id is higher |
| SimulatorReducer.LeaderIsMaximal | src/services/SimulatorContext.tsx:54-60 | carrying `Math.max` of the input is the same as having no higher id in the roster |
| SimulatorReducer.InitializeProcessesUnique | src/services/SimulatorContext.tsx:51-63 | on distinct ids the roster is strictly ascending and exactly one process leads |
| SimulatorReducer.InitialState | src/services/SimulatorContext.tsx:65-73 | the leader is 5, with no messages and no logs, no election and the simulation paused |
| SimulatorReducer.InitialRoster | src/services/SimulatorContext.tsx:65-69 | the initial roster is P1..P5, all active, with P5 alone leading |
| SimulatorReducer.ActiveIdsSpec | src/services/SimulatorContext.tsx:86-88 | the collected ids are exactly those of active processes |
| SimulatorReducer.MarkLeaderSpec | src/services/SimulatorContext.tsx:91-93 | marking changes only leader flags, and only on the chosen id |
| SimulatorReducer.ToggleFlipsOnlyTarget | src/services/SimulatorContext.tsx:78-83 | TOGGLE_PROCESS flips the activity of the matching process only and leaves messages, logs and flags alone |
| SimulatorReducer.ToggleElectsHighest | src/services/SimulatorContext.tsx:85-99 | after a toggle the leader is the highest active process, or there is none and no process is marked |
| SimulatorReducer.HighestActive | src/services/SimulatorContext.tsx:86-89 | some process is active exactly when the id list is non-empty, and its maximum is the highest active id |
| SimulatorReducer.ToggleSingleLeader | src/services/SimulatorContext.tsx:85-99 | on unique positive ids, a process is marked leader after a toggle exactly when it is the recorded leader |
| SimulatorReducer.ConfigureNodesSpec | src/services/SimulatorContext.tsx:165-176 | the new roster is the sorted input, all active, led by its maximum; messages and the election flag are cleared, logs and the simulation flag kept |
| SimulatorReducer.ResetRestoresInitial | src/services/SimulatorContext.tsx:109-115 | RESET_SYSTEM yields the initial state, P1..P5 active and led by P5 |
| SimulatorReducer.ResetIdempotent | src/services/SimulatorContext.tsx:109-115 | resetting twice is resetting once |
| SimulatorReducer.AddLogSpec | src/services/SimulatorContext.tsx:117-129 | the new entry comes last, at most 100 entries are kept, the oldest ones are dropped first, nothing else changes |
| SimulatorReducer.AddMessageSpec | src/services/SimulatorContext.tsx:131-136 | the message is appended and nothing else changes |
| SimulatorReducer.WithoutMessage | src/services/SimulatorContext.tsx:138-143 | keeps exactly the messages with a different id |
| SimulatorReducer.WithoutMessageAppend | src/services/SimulatorContext.tsx:138-143 | removal distributes over concatenation, keeping order |
| SimulatorReducer.WithoutAbsentMessage | src/services/SimulatorContext.tsx:138-143 | removing an absent id changes nothing |
| SimulatorReducer.AddThenRemove | src/services/SimulatorContext.tsx:131-143 | adding a message and removing its id leaves the old messages without that id |
| SimulatorReducer.UpdateLeaderSpec | src/services/SimulatorContext.tsx:145-156 | the leader is recorded, exactly the processes with that id are marked, nothing else changes |
| SimulatorReducer.LastN | src/services/SimulatorContext.tsx:127 | `slice(-100)` keeps the last at most 100 entries |
| SimulatorReducer.AtMostOneLeader | src/services/SimulatorContext.tsx:145-156 | in a well-formed state (ids ascending, leader mark consistent) at most one process is marked leader |
| SimulatorReducer.InitialWellFormed | src/services/SimulatorContext.tsx:65-73 | the initial state is well formed |
| SimulatorReducer.ReducePreservesWellFormed | src/services/SimulatorContext.tsx:75-196 | every action keeps the state well formed (CONFIGURE_NODES given distinct ids, as the panel supplies) |
| SimulatorContext.ApplyKeepsRoster | src/services/SimulatorContext.tsx:316-325 | the orchestrator's callbacks never change ids, labels or activity, nor the simulation flags |
| SimulatorContext.TimeoutElectsInitiator | src/services/SimulatorContext.tsx:320-324 | an election timeout records the process as leader, marks exactly it, ends the election and logs the declaration last |
| SimulatorContext.ApplyComplete | src/services/SimulatorContext.tsx:321-324 | completion records the leader, marks it and ends the election, changing nothing else |
| SimulatorContext.ToggleLogMatchesOutcome | src/services/SimulatorContext.tsx:282-294 | an unknown id changes nothing; otherwise the first matching process flips and the last log says "failed"/"recovered" in agreement with the flip |
| SimulatorContext.ToggleFirstMatch | src/services/SimulatorContext.tsx:283-293 | the first process with the id flips, and the log line and type match its new activity |
| SimulatorContext.ElectionInitiator | src/services/SimulatorContext.tsx:296-306 | nothing during an election or with no active process; a given id starts only if active; otherwise the first active process starts |
| SimulatorContext.DefaultInitiatorIsLowest | src/services/SimulatorContext.tsx:304 | on a sorted roster the default initiator is the lowest active process |
| SimulatorContext.StartElectionOutcome | src/services/SimulatorContext.tsx:308-325 | logs who started; with higher processes the election stays in progress, otherwise the initiator at once leads alone |
| SimulatorContext.ImmediateIffHighest | src/services/ElectionOrchestrator.ts:27-33 | an election completes at once exactly when the initiator is the highest active process |
| SimulatorContext.ResetRestoresDefaults | src/services/SimulatorContext.tsx:328-336 | the reset commit restores the initial state, its default roster led by P5, with the reset line as its only log line |
| SimulatorContext.ResetOutcome | src/services/SimulatorContext.tsx:206-269 | the effect run on what the reset commit leaves (paused, the reset line alone) makes the log the reset line followed by the paused line and changes nothing else |
| SimulatorContext.EffectOutcome | src/services/SimulatorContext.tsx:206-270 | a run of the heartbeat effect changes only the log, appending the started line when the simulation runs and the paused line otherwise, after the lines already there |
| SimulatorContext.MountOutcome | src/services/SimulatorContext.tsx:198-199 | on mount the effect's first run, a `HeartbeatEffect` call after the constructor, leaves the initial state with the paused line as its only log line |
| SimulatorContext.ConfigureOutcome | src/services/SimulatorContext.tsx:366-376 | the roster is rebuilt from the ids led by their maximum, messages cleared, and the reconfiguration logged |
| SimulatorContext.SimulationToggleOutcome | src/services/SimulatorContext.tsx:178-184 | with the effect run the flipped flag triggers: the running flag flips, the heartbeat clock restarts, exactly one line is logged, the started or paused one for the new flag, and nothing else changes |
| SimulatorContext.UpdateLeaderOutcome | src/services/SimulatorContext.tsx:350-360 | the leader is recorded and marked; "elected" is logged only for a known id |
| SimulatorContext.LiveLeader | src/services/SimulatorContext.tsx:212-213 | on unique ids, a live leader is found exactly when the recorded leader is an active process |
| SimulatorContext.HeartbeatDecision | src/services/SimulatorContext.tsx:212-245 | heartbeats go out exactly when the leader is live; otherwise, with some process active and no election running, the lowest active process starts one |
| SimulatorContext.HeartbeatsReachEveryFollower | src/services/SimulatorContext.tsx:212-232 | one heartbeat per follower counted in the log line, each to an active follower, and every active follower gets one |
| SimulatorContext.TickKeepsState | src/services/SimulatorContext.tsx:209-242 | a tick only stamps the heartbeat time and adds log lines |
| SimulatorContext.FailureStartsElection | src/services/SimulatorContext.tsx:234-244 | after a failure is detected, the election starts from the lowest active process |
| SimulatorContext.WellFormedFailureElectsLowest | src/services/SimulatorContext.tsx:234-244 | in every well-formed state a detected failure hands the election to the lowest active process |
| SimulatorContext.InitiatorDependsOnRoster | src/services/SimulatorContext.tsx:296-306 | the initiator depends only on the roster and the election flag |
| SimulatorContext.EventEffects | src/services/ElectionOrchestrator.ts:36-82 | a timeout declares its process, a heartbeat delivery emits its message, a restart completes only when no higher process is left |
| SimulatorContext.HeartbeatTimers | src/services/SimulatorContext.tsx:220-224 | one delivery timer per heartbeat, the i-th due 100·i ms later |
| SimulatorContext.Simulator.constructor | src/services/SimulatorContext.tsx:198-203 | the provider mounts in `useReducer`'s initial state, with no timers and no pending election |
| SimulatorContext.Simulator.Dispatch | src/services/SimulatorContext.tsx:338-348 | the state becomes the reducer's result on the current clock |
| SimulatorContext.Simulator.ApplyEffects | src/services/SimulatorContext.tsx:319-324 | running the callbacks one by one reaches the state `Apply` describes |
| SimulatorContext.Simulator.ApplyEffect | src/services/SimulatorContext.tsx:319-324 | one callback: a message is added, a log line is added (using one id suffix), or the leader is recorded and the election flag cleared, as `ApplyOne` describes |
| SimulatorContext.Simulator.ToggleProcess | src/services/SimulatorContext.tsx:282-294 | the state becomes `AfterToggle`, whose properties `ToggleLogMatchesOutcome` states |
| SimulatorContext.Simulator.StartElection | src/services/SimulatorContext.tsx:296-326 | returns the initiator `ElectionInitiator` chooses; without one nothing changes, with one the election is launched |
| SimulatorContext.Simulator.Launch | src/services/SimulatorContext.tsx:308-325 | dispatches the start, logs it and hands the election to the orchestrator, reaching `AfterStart` and the orchestrator's initiated state |
| SimulatorContext.Simulator.ResetSystem | src/services/SimulatorContext.tsx:328-336 | clears every pending election and its timeout and reaches `AfterReset` |
| SimulatorContext.Simulator.ConfigureNodes | src/services/SimulatorContext.tsx:366-376 | does nothing during an election; otherwise clears pending elections and reaches `AfterConfigure` |
| SimulatorContext.Simulator.ToggleSimulation | src/services/SimulatorContext.tsx:378-380 | reaches `AfterSimulationToggle`, TOGGLE_SIMULATION alone |
| SimulatorContext.Simulator.HeartbeatEffect | src/services/SimulatorContext.tsx:206-270 | reaches `AfterEffect`: one line logged for the running flag, nothing else changed |
| SimulatorContext.Simulator.UpdateLeader | src/services/SimulatorContext.tsx:350-360 | reaches `AfterUpdateLeader` |
| SimulatorContext.Simulator.HeartbeatTick | src/services/SimulatorContext.tsx:208-246 | performs the step `HeartbeatDecision` chooses; a detected failure always finds an initiator |
| SimulatorContext.Simulator.Beat | src/services/SimulatorContext.tsx:212-232 | schedules the heartbeats and logs them when the leader has followers |
| SimulatorContext.Simulator.ReportFailure | src/services/SimulatorContext.tsx:233-245 | logs the failure and starts the election from the lowest active process |
| SimulatorContext.Simulator.LogFailure | src/services/SimulatorContext.tsx:209-242 | the tick's own dispatches on a failed leader (heartbeat clock, then the failure line) reach `AfterTick` and use one id suffix |
| SimulatorContext.Simulator.ScheduleHeartbeats | src/services/SimulatorContext.tsx:220-224 | appends the heartbeat delivery timers 100 ms apart and nothing else |
| SimulatorContext.Simulator.Step | src/services/SimulatorContext.tsx:316-325 | fires the earliest timer and applies its callbacks; a restart re-initiates the election on the remaining timers; an empty queue changes nothing |
| NodeConfiguration.ParsePieces | src/components/NodeConfiguration.tsx:14 | each piece is parsed after trimming |
| NodeConfiguration.Positives | src/components/NodeConfiguration.tsx:15 | only positive numbers are kept |
| NodeConfiguration.PositivesMember | src/components/NodeConfiguration.tsx:15 | a value is kept exactly when it parsed and is positive |
| NodeConfiguration.ParseNodeIdsSpec | src/components/NodeConfiguration.tsx:12-19 | the parsed ids are positive and strictly ascending, and are exactly the positive numbers written between commas |
| NodeConfiguration.PositivePiecesOfJoined | src/components/NodeConfiguration.tsx:12-15 | the ", "-joined positive ids, after leading blanks, parse back piece by piece |
| NodeConfiguration.ParseJoinRoundTrip | src/components/NodeConfiguration.tsx:26-28 | joining ascending positive ids and parsing them gives them back |
| NodeConfiguration.ApplyIsStable | src/components/NodeConfiguration.tsx:10-28 | the text the panel writes back after applying parses to the ids applied |
| NodeConfiguration.Sequential | src/components/NodeConfiguration.tsx:34 | the ids 1..count |
| NodeConfiguration.SequentialRoundTrip | src/components/NodeConfiguration.tsx:34-35 | the generated text parses back to 1..count |
| NodeConfiguration.CountInput | src/components/NodeConfiguration.tsx:52 | a parsed non-zero count is taken as is; empty, unparsable or zero input gives 2 |
| NodeConfiguration.ResetTextIsDefaultRoster | src/components/NodeConfiguration.tsx:38-41 | the reset text is the simulator's default roster, written and parsed |
| NodeConfiguration.Panel.constructor | src/components/NodeConfiguration.tsx:7-8 | the fields start as the roster's size and its ", "-joined ids |
| NodeConfiguration.Panel.EditIds | src/components/NodeConfiguration.tsx:62 | typing replaces the id text only |
| NodeConfiguration.Panel.HandleNodeCountChange | src/components/NodeConfiguration.tsx:31-36 | sets the count and the text 1..count |
| NodeConfiguration.Panel.EditCount | src/components/NodeConfiguration.tsx:52 | the count field feeds the parsed count or 2 to the count handler |
| NodeConfiguration.Panel.HandleReset | src/components/NodeConfiguration.tsx:38-41 | count 5 and text "1, 2, 3, 4, 5" |
| NodeConfiguration.Panel.HandleApplyConfiguration | src/components/NodeConfiguration.tsx:10-29 | alerts and changes nothing exactly when no valid id is written; otherwise reconfigures the simulator with the parsed ids and rewrites both fields |
| NodeConfiguration.Panel.Apply | src/components/NodeConfiguration.tsx:26-28 | reconfigures the simulator, then sets the count to the number of ids and the text to their joined form |

## Left out

- The canvas, the geometry of process positions and every presentation component (title bar, log window, controls, system information) are not modelled. They draw the state and hold no logic of the algorithm. The `position` field of a process is omitted for the same reason.
- `calculateAnimationProgress` and the frame loop that advances message progress are not modelled. They use floating point and the wall clock.
- Time is a virtual clock and timers are an explicit queue. The browser's timer precision and the interleaving with rendering are not modelled.
- `Date.now()` and `Math.random()` become a clock value and counters, so generated ids are deterministic in the model.
- SimulatorContext.Simulator.HeartbeatEffect: the renderer decides when the heartbeat effect runs. It runs on mount and after every commit that changes `isSimulationRunning`, `currentLeader`, `isElectionInProgress` or the `processes` array, which is compared by reference. In the model it is always a separate step for the caller, on mount as well. So the constructor's contract is the state `useReducer` starts from, and the contracts of ResetSystem, ConfigureNodes, ToggleProcess, StartElection, Launch, UpdateLeader, ToggleSimulation, Step and HeartbeatTick, and the outcome lemmas of those operations, describe the committed state before that run. The run then appends "Simulation started - heartbeat monitoring active" or "Simulation paused - heartbeat monitoring stopped". EffectOutcome states this appended line and shows that the operation's own newest line moves to second-newest. ResetOutcome and SimulationToggleOutcome state the state after the run.
- SimulatorContext.Simulator.HeartbeatTick: models one run of the 2-second interval on the current state. It does not model the stale closure between effect re-runs, nor the interval being recreated whenever the roster, leader or election flag change.
- `handleOkMessage` of the algorithm class (src/services/BullyAlgorithm.ts:42-45) is not modelled. It has an empty body.
- The orchestrator's `handleElectionMessage`, `handleOkMessage` and `handleCoordinatorMessage` are modelled, but no caller in the provider invokes them. So in the simulator the initiator always wins by the 4-second timeout, or at once when it is the highest.
- Text.ParseInt: covers optional sign and decimal digits after blanks. It does not cover JavaScript's other `parseInt` forms such as "0x" prefixes, nor the numeric limits of doubles.
- NodeConfiguration.Sequential: a count above 2^32 - 1 makes `Array.from` throw a RangeError, because it builds the array with `new Array(count)`. The model's integers are unbounded, and it returns 1..count.
- SimulatorReducer.Reduce: CONFIGURE_NODES with an empty list records no leader, where the source stores `Math.max()` of nothing (-Infinity). The panel never sends an empty list.
- The disabled state of the Apply and Reset buttons (src/components/NodeConfiguration.tsx:72 and :79) is not a precondition of the panel's methods. It only greys out the buttons; the handlers themselves do not check it.
- The `electionInitiator` and `isAutoElection` fields of the state type are never written by the core, so they are omitted.
- The comment at src/services/SimulatorContext.tsx:315 speaks of a 6-second timeout. The code uses 4000 ms, and the model follows the code.
- Resetting or reconfiguring cancels only the election timeouts, as `clearAllElections` does. ELECTION sends already scheduled still fire afterwards, in the model as in the source.
- The React wiring (the context object, `useSimulator`, `useState`), the build configuration and the app shell are not modelled.
