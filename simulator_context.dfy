/** The provider of src/services/SimulatorContext.tsx: the operations the
    user interface calls (toggle a process, start an election, reset,
    reconfigure, start or pause the simulation, record a leader) and the
    heartbeat tick.  Each operation is first stated as the state its
    dispatches lead to, decided on the state it sees; the `Simulator` class
    then performs it on its own state, next to the election orchestrator
    and the timer queue, and is proved to reach that state. */
module SimulatorContext {
  import opened Types
  import opened Text
  import IntSeq
  import BullyAlgorithm
  import opened EventLoop
  import EO = ElectionOrchestrator
  import opened SimulatorReducer

  // ---------------------------------------------------------------------
  // Callbacks of the orchestrator

  /** The state after the callbacks the provider hands to the orchestrator
      ran for `effects`, one after the other: `onMessage` dispatches
      ADD_MESSAGE, `onLog` ADD_LOG (each line drawing the next suffix), and
      `onElectionComplete` UPDATE_LEADER and then
      SET_ELECTION_IN_PROGRESS(false). */
  function Apply(s: SimulatorState, effects: seq<EO.Effect>, loadTime: int, now: int, nonce: nat): SimulatorState
    decreases |effects|
  {
    if effects == [] then s
    else Apply(ApplyOne(s, effects[0], loadTime, now, nonce), effects[1..], loadTime, now, nonce + LogsOf(effects[0]))
  }

  /** Applying the effects from `i` on is the callback for effect `i`,
      then the rest. */
  lemma ApplyAt(s: SimulatorState, effects: seq<EO.Effect>, i: nat, loadTime: int, now: int, nonce: nat)
    requires i < |effects|
    ensures Apply(s, effects[i..], loadTime, now, nonce)
         == Apply(ApplyOne(s, effects[i], loadTime, now, nonce), effects[i + 1..], loadTime, now, nonce + LogsOf(effects[i]))
    ensures LogCount(effects[i..]) == LogsOf(effects[i]) + LogCount(effects[i + 1..])
  {
    assert effects[i..][0] == effects[i] && effects[i..][1..] == effects[i + 1..];
  }

  /** The dispatches of the callback for one effect. */
  function ApplyOne(s: SimulatorState, effect: EO.Effect, loadTime: int, now: int, nonce: nat): SimulatorState
  {
    var env := Env(loadTime, now, nonce);
    match effect
    case Emit(m) => Reduce(s, AddMessage(m), env)
    case Log(text, logType) => Reduce(s, AddLog(text, logType), env)
    case Complete(leaderId) => Reduce(Reduce(s, UpdateLeader(leaderId), env), SetElectionInProgress(false), env)
  }

  /** 1 for a log effect, whose callback adds a line, else 0. */
  function LogsOf(effect: EO.Effect): nat
  {
    if effect.Log? then 1 else 0
  }

  /** How many log lines the callbacks of `effects` add. */
  function LogCount(effects: seq<EO.Effect>): (n: nat)
    ensures n <= |effects|
    ensures (forall i :: 0 <= i < |effects| ==> !effects[i].Log?) ==> n == 0
  {
    if effects == [] then 0 else LogsOf(effects[0]) + LogCount(effects[1..])
  }

  /** The callbacks never change who is in the roster or who is up, nor
      the simulation flag and the heartbeat clock: they only add messages
      and log lines and move the leader mark. */
  lemma {:induction false} ApplyKeepsRoster(s: SimulatorState, effects: seq<EO.Effect>, loadTime: int, now: int, nonce: nat)
    ensures var r := Apply(s, effects, loadTime, now, nonce);
      && |r.processes| == |s.processes|
      && (forall i :: 0 <= i < |s.processes| ==>
            r.processes[i].id == s.processes[i].id && r.processes[i].name == s.processes[i].name
            && r.processes[i].isActive == s.processes[i].isActive)
      && r.isSimulationRunning == s.isSimulationRunning && r.lastHeartbeat == s.lastHeartbeat
    decreases |effects|
  {
    if effects != [] {
      ApplyOneKeepsRoster(s, effects[0], loadTime, now, nonce);
      ApplyKeepsRoster(ApplyOne(s, effects[0], loadTime, now, nonce), effects[1..], loadTime, now, nonce + LogsOf(effects[0]));
    }
  }

  /** One callback keeps the roster, the activity flags and the clock. */
  lemma ApplyOneKeepsRoster(s: SimulatorState, effect: EO.Effect, loadTime: int, now: int, nonce: nat)
    ensures var r := ApplyOne(s, effect, loadTime, now, nonce);
      && |r.processes| == |s.processes|
      && (forall i :: 0 <= i < |s.processes| ==>
            r.processes[i].id == s.processes[i].id && r.processes[i].name == s.processes[i].name
            && r.processes[i].isActive == s.processes[i].isActive)
      && r.isSimulationRunning == s.isSimulationRunning && r.lastHeartbeat == s.lastHeartbeat
  {
    if effect.Complete? {
      UpdateLeaderSpec(s, effect.leaderId, Env(loadTime, now, nonce));
    }
  }

  /** "Process P<id> declares itself as leader", the line of an election
      whose 4 s wait for an OK ran out. */
  function DeclarationLine(processId: int): string
  {
    "Process P" + IntToString(processId) + " declares itself as leader"
  }

  /** An election that timed out makes its initiator the leader: the
      recorded leader is the initiator, exactly the processes carrying its
      id are marked, no election is in progress, and the declaration is the
      newest log line. */
  lemma TimeoutElectsInitiator(s: SimulatorState, processId: int, loadTime: int, now: int, nonce: nat)
    ensures var r := Apply(s, [EO.Log(DeclarationLine(processId), Leader), EO.Complete(processId)], loadTime, now, nonce);
      && r.currentLeader == Some(processId)
      && !r.isElectionInProgress
      && |r.processes| == |s.processes|
      && (forall i :: 0 <= i < |r.processes| ==>
            && r.processes[i].id == s.processes[i].id
            && r.processes[i].isActive == s.processes[i].isActive
            && (r.processes[i].isLeader <==> r.processes[i].id == processId))
      && r.logs != [] && r.logs[|r.logs| - 1] == LogEntry(LogId(now, nonce), now, DeclarationLine(processId), Leader)
  {
    var effects := [EO.Log(DeclarationLine(processId), Leader), EO.Complete(processId)];
    var env := Env(loadTime, now, nonce);
    var logged := Reduce(s, AddLog(DeclarationLine(processId), Leader), env);
    AddLogSpec(s, DeclarationLine(processId), Leader, env);
    assert Apply(s, effects, loadTime, now, nonce) == Apply(logged, [EO.Complete(processId)], loadTime, now, nonce + 1)
      by { assert effects[1..] == [EO.Complete(processId)]; }
    ApplyComplete(logged, processId, loadTime, now, nonce + 1);
  }

  /** The completion callback alone: the leader is recorded and marked,
      the election ends, and nothing else changes. */
  lemma ApplyComplete(s: SimulatorState, leaderId: int, loadTime: int, now: int, nonce: nat)
    ensures var r := Apply(s, [EO.Complete(leaderId)], loadTime, now, nonce);
      && r.currentLeader == Some(leaderId)
      && !r.isElectionInProgress
      && |r.processes| == |s.processes|
      && (forall i :: 0 <= i < |s.processes| ==>
            && r.processes[i].id == s.processes[i].id
            && r.processes[i].isActive == s.processes[i].isActive
            && (r.processes[i].isLeader <==> s.processes[i].id == leaderId))
      && r == s.(processes := r.processes, currentLeader := Some(leaderId), isElectionInProgress := false)
  {
    var env := Env(loadTime, now, nonce);
    UpdateLeaderSpec(s, leaderId, env);
    assert [EO.Complete(leaderId)][1..] == [];
  }

  // ---------------------------------------------------------------------
  // toggleProcess

  /** "Process <label> failed" or "... recovered", by the activity before
      the toggle. */
  function ToggleLine(p: Process): string
  {
    "Process " + p.name + (if p.isActive then " failed" else " recovered")
  }

  /** `toggleProcess(processId)`: nothing for an unknown id; otherwise
      TOGGLE_PROCESS and the failed/recovered line. */
  function AfterToggle(s: SimulatorState, processId: int, loadTime: int, now: int, nonce: nat): SimulatorState
  {
    var env := Env(loadTime, now, nonce);
    match BullyAlgorithm.Find(s.processes, processId)
    case None => s
    case Some(p) =>
      Reduce(Reduce(s, ToggleProcess(processId), env), AddLog(ToggleLine(p), if p.isActive then Failure else Recovery), env)
  }

  /** `toggleProcess` on a listed process flips its activity, and the new
      log line says "failed" with the failure type exactly when the process
      is now down, "recovered" with the recovery type when it is up again.
      An unknown id changes nothing. */
  lemma ToggleLogMatchesOutcome(s: SimulatorState, processId: int, loadTime: int, now: int, nonce: nat)
    ensures (forall i :: 0 <= i < |s.processes| ==> s.processes[i].id != processId) ==>
      AfterToggle(s, processId, loadTime, now, nonce) == s
    ensures |AfterToggle(s, processId, loadTime, now, nonce).processes| == |s.processes|
    ensures var r := AfterToggle(s, processId, loadTime, now, nonce);
      forall k | 0 <= k < |s.processes| && s.processes[k].id == processId
                 && (forall j :: 0 <= j < k ==> s.processes[j].id != processId) ::
        && r.processes[k].isActive == !s.processes[k].isActive
        && r.logs != []
        && r.logs[|r.logs| - 1].message ==
             "Process " + s.processes[k].name + (if r.processes[k].isActive then " recovered" else " failed")
        && r.logs[|r.logs| - 1].logType == (if r.processes[k].isActive then Recovery else Failure)
  {
    var idx := BullyAlgorithm.FirstIndex(s.processes, processId, false);
    if idx >= 0 {
      ToggleFirstMatch(s, processId, idx, loadTime, now, nonce);
    }
    forall k | 0 <= k < |s.processes| && s.processes[k].id == processId
               && (forall j :: 0 <= j < k ==> s.processes[j].id != processId)
    {
      ToggleFirstMatch(s, processId, k, loadTime, now, nonce);
    }
  }

  /** The same, for the first process `k` that carries the id. */
  lemma ToggleFirstMatch(s: SimulatorState, processId: int, k: int, loadTime: int, now: int, nonce: nat)
    requires 0 <= k < |s.processes| && s.processes[k].id == processId
    requires forall j :: 0 <= j < k ==> s.processes[j].id != processId
    ensures var r := AfterToggle(s, processId, loadTime, now, nonce);
      && |r.processes| == |s.processes|
      && r.processes[k].isActive == !s.processes[k].isActive
      && r.logs != []
      && r.logs[|r.logs| - 1].message ==
           "Process " + s.processes[k].name + (if r.processes[k].isActive then " recovered" else " failed")
      && r.logs[|r.logs| - 1].logType == (if r.processes[k].isActive then Recovery else Failure)
  {
    var p := s.processes[k];
    FindFirstMatch(s.processes, processId, k);
    var env := Env(loadTime, now, nonce);
    var toggled := Reduce(s, ToggleProcess(processId), env);
    ToggleFlipsOnlyTarget(s, processId, env);
    AddLogSpec(toggled, ToggleLine(p), if p.isActive then Failure else Recovery, env);
  }

  /** `find` returns the first process carrying the id. */
  lemma FindFirstMatch(ps: seq<Process>, id: int, k: int)
    requires 0 <= k < |ps| && ps[k].id == id
    requires forall j :: 0 <= j < k ==> ps[j].id != id
    ensures BullyAlgorithm.Find(ps, id) == Some(ps[k])
  {
    var idx := BullyAlgorithm.FirstIndex(ps, id, false);
    assert !(idx < k) && !(k < idx);
  }

  // ---------------------------------------------------------------------
  // startElection

  /** The initiator `startElection(initiatorId?)` picks, or none when it
      returns early: an election in progress or no active process stops
      it; a given non-zero id names the active process with that id, if
      any; no id (or 0, which JavaScript reads as false) takes the first
      active process of the roster. */
  function ElectionInitiator(s: SimulatorState, initiatorId: Option<int>): (r: Option<Process>)
    ensures s.isElectionInProgress || !AnyActive(s.processes) ==> r.None?
    ensures r.Some? ==> r.value in s.processes && r.value.isActive
    ensures !s.isElectionInProgress && initiatorId.Some? && initiatorId.value != 0 ==>
      (r.Some? <==> AnyActive(s.processes) && IsActiveId(s.processes, initiatorId.value))
      && (r.Some? ==> r.value.id == initiatorId.value)
    ensures !s.isElectionInProgress && (initiatorId.None? || initiatorId.value == 0) ==>
      (r.Some? <==> AnyActive(s.processes))
      && (r.Some? ==> exists k :: 0 <= k < |s.processes| && s.processes[k] == r.value
                               && forall j :: 0 <= j < k ==> !s.processes[j].isActive)
  {
    var active := BullyAlgorithm.Select(s.processes, BullyAlgorithm.AllActive);
    ActiveFirst(s.processes);
    if s.isElectionInProgress || |active| == 0 then None
    else if initiatorId.Some? && initiatorId.value != 0 then BullyAlgorithm.FindActive(s.processes, initiatorId.value)
    else Some(active[0])
  }

  /** The filtered list of active processes is empty exactly when no
      process is active, and otherwise starts with the first active process
      of the roster. */
  lemma {:induction false} ActiveFirst(ps: seq<Process>)
    ensures var active := BullyAlgorithm.Select(ps, BullyAlgorithm.AllActive);
      && (active == [] <==> !AnyActive(ps))
      && (active != [] ==> exists k :: 0 <= k < |ps| && ps[k] == active[0] && forall j :: 0 <= j < k ==> !ps[j].isActive)
  {
    if ps != [] {
      ActiveFirst(ps[1..]);
      var rest := BullyAlgorithm.Select(ps[1..], BullyAlgorithm.AllActive);
      if !ps[0].isActive && rest != [] {
        var k :| 0 <= k < |ps[1..]| && ps[1..][k] == rest[0] && forall j :: 0 <= j < k ==> !ps[1..][j].isActive;
        assert ps[k + 1] == rest[0];
      }
      if !ps[0].isActive && rest == [] {
        assert forall i :: 1 <= i < |ps| ==> ps[i] == ps[1..][i - 1];
      }
    }
  }

  /** On a roster sorted by id, the default initiator is the active process
      with the lowest id. */
  lemma DefaultInitiatorIsLowest(s: SimulatorState)
    requires SortedIds(s.processes)
    ensures var r := ElectionInitiator(s, None);
      r.Some? ==> forall i :: 0 <= i < |s.processes| && s.processes[i].isActive ==> r.value.id <= s.processes[i].id
  {
    var r := ElectionInitiator(s, None);
    if r.Some? {
      var k :| 0 <= k < |s.processes| && s.processes[k] == r.value && forall j :: 0 <= j < k ==> !s.processes[j].isActive;
      FirstActiveIsLowest(s.processes, k);
    }
  }

  /** On a roster sorted by id, the first active process has the lowest
      active id. */
  lemma FirstActiveIsLowest(ps: seq<Process>, k: int)
    requires SortedIds(ps)
    requires 0 <= k < |ps| && forall j :: 0 <= j < k ==> !ps[j].isActive
    ensures forall i :: 0 <= i < |ps| && ps[i].isActive ==> ps[k].id <= ps[i].id
  {
    forall i | 0 <= i < |ps| && ps[i].isActive
      ensures ps[k].id <= ps[i].id
    {
      assert k <= i;
    }
  }

  /** "Election started by Process <label>". */
  function StartedLine(p: Process): string
  {
    "Election started by Process " + p.name
  }

  /** The dispatches of a `startElection` that found its initiator `p`:
      START_ELECTION and the "Election started" line; when the orchestrator
      has nobody to send an ELECTION to, its completion callback follows at
      once. */
  function AfterStart(s: SimulatorState, p: Process, immediate: bool, loadTime: int, now: int, nonce: nat): SimulatorState
  {
    var env := Env(loadTime, now, nonce);
    var started := Reduce(Reduce(s, Action.StartElection(Some(p.id)), env), AddLog(StartedLine(p), Election), env);
    Apply(started, if immediate then [EO.Complete(p.id)] else [], loadTime, now, nonce + 1)
  }

  /** After `startElection` found its initiator: when ELECTION messages go
      out, the election is in progress and the roster and the recorded
      leader stay; when none does, the initiator is the recorded leader,
      exactly the processes with its id are marked, and no election is in
      progress.  Either way the "Election started" line is the newest. */
  lemma StartElectionOutcome(s: SimulatorState, p: Process, immediate: bool, loadTime: int, now: int, nonce: nat)
    ensures var r := AfterStart(s, p, immediate, loadTime, now, nonce);
      && |r.processes| == |s.processes|
      && (forall i :: 0 <= i < |s.processes| ==>
            r.processes[i].id == s.processes[i].id && r.processes[i].isActive == s.processes[i].isActive)
      && r.messages == s.messages
      && r.logs != [] && r.logs[|r.logs| - 1] == LogEntry(LogId(now, nonce), now, StartedLine(p), Election)
      && (!immediate ==> r.isElectionInProgress && r.processes == s.processes && r.currentLeader == s.currentLeader)
      && (immediate ==>
            && !r.isElectionInProgress && r.currentLeader == Some(p.id)
            && forall i :: 0 <= i < |r.processes| ==> (r.processes[i].isLeader <==> r.processes[i].id == p.id))
  {
    var env := Env(loadTime, now, nonce);
    var marked := Reduce(s, Action.StartElection(Some(p.id)), env);
    var started := Reduce(marked, AddLog(StartedLine(p), Election), env);
    AddLogSpec(marked, StartedLine(p), Election, env);
    if immediate {
      ApplyComplete(started, p.id, loadTime, now, nonce + 1);
    }
  }

  /** No ELECTION goes out exactly when no active process has a higher id
      than the initiator: then it completes at once. */
  lemma ImmediateIffHighest(p: Process, ps: seq<Process>, now: int, serial: nat)
    requires p in ps && p.isActive
    ensures BullyAlgorithm.StartElection(p.id, ps, now, serial) == [] <==>
      forall i :: 0 <= i < |ps| && ps[i].isActive ==> ps[i].id <= p.id
  {
    BullyAlgorithm.ActiveMember(ps, p);
    BullyAlgorithm.StartElectionReachesAllHigher(p.id, ps, now, serial);
    var r := BullyAlgorithm.StartElection(p.id, ps, now, serial);
    if r != [] {
      assert IsActiveId(ps, r[0].to) && p.id < r[0].to;
    }
  }

  // ---------------------------------------------------------------------
  // resetSystem, configureNodes, toggleSimulation, updateLeader

  const ResetLine: string := "System reset - all processes restored"
  const RunningLine: string := "Simulation started - heartbeat monitoring active"
  const PausedLine: string := "Simulation paused - heartbeat monitoring stopped"

  /** The line the heartbeat effect logs on each run: monitoring started
      while the simulation runs, stopped while it does not. */
  function MonitorLine(s: SimulatorState): string
  {
    if s.isSimulationRunning then RunningLine else PausedLine
  }

  /** One run of the heartbeat effect: it arms or clears the 2-second
      interval, which lives outside the state, and logs `MonitorLine`. */
  function AfterEffect(s: SimulatorState, loadTime: int, now: int, nonce: nat): SimulatorState
  {
    s.(logs := AppendLog(s.logs, LogEntry(LogId(now, nonce), now, MonitorLine(s), Info)))
  }

  /** A run of the effect changes nothing but the log: the started or the
      paused line, as the running flag says, comes after the lines already
      there, so the operation's own newest line becomes the one before. */
  lemma EffectOutcome(s: SimulatorState, loadTime: int, now: int, nonce: nat)
    ensures var r := AfterEffect(s, loadTime, now, nonce);
      && r == s.(logs := r.logs)
      && r.logs != []
      && r.logs[|r.logs| - 1] == LogEntry(LogId(now, nonce), now, if s.isSimulationRunning then RunningLine else PausedLine, Info)
      && (|s.logs| < MaxLogs ==> r.logs == s.logs + [r.logs[|r.logs| - 1]])
      && (s.logs != [] ==> |r.logs| >= 2 && r.logs[|r.logs| - 2] == s.logs[|s.logs| - 1])
  {
    AppendLogSpec(s.logs, LogEntry(LogId(now, nonce), now, MonitorLine(s), Info));
  }

  /** `resetSystem()` after the orchestrator is cleared: RESET_SYSTEM and
      its line. */
  function AfterReset(s: SimulatorState, loadTime: int, now: int, nonce: nat): SimulatorState
  {
    var env := Env(loadTime, now, nonce);
    Reduce(Reduce(s, ResetSystem, env), AddLog(ResetLine, Info), env)
  }

  /** The reset commit brings back the initial state, its default roster
      led by P5 and nothing running, with the reset line as its only log
      line. */
  lemma ResetRestoresDefaults(s: SimulatorState, loadTime: int, now: int, nonce: nat)
    ensures var r := AfterReset(s, loadTime, now, nonce);
      && r == InitialState(loadTime).(logs := [LogEntry(LogId(now, nonce), now, ResetLine, Info)])
      && Ids(r.processes) == DefaultNodeIds()
      && (forall i :: 0 <= i < |r.processes| ==> r.processes[i].isActive && (r.processes[i].isLeader <==> r.processes[i].id == 5))
  {
    var env := Env(loadTime, now, nonce);
    ResetRestoresInitial(s, env);
    AddLogSpec(InitialState(loadTime), ResetLine, Info, env);
  }

  /** The effect run that the reset's new roster array triggers, on what
      the reset commit leaves (`ResetRestoresDefaults`: the initial state,
      paused, with the reset line alone in the log): the paused line comes
      after the reset line, and nothing else changes. */
  lemma ResetOutcome(reset: SimulatorState, loadTime: int, now: int, nonce: nat)
    requires !reset.isSimulationRunning && reset.logs == [LogEntry(LogId(now, nonce), now, ResetLine, Info)]
    ensures AfterEffect(reset, loadTime, now, nonce + 1)
         == reset.(logs := [LogEntry(LogId(now, nonce), now, ResetLine, Info), LogEntry(LogId(now, nonce + 1), now, PausedLine, Info)])
  {
    AppendLogSpec(reset.logs, LogEntry(LogId(now, nonce + 1), now, PausedLine, Info));
  }

  /** Mounting the provider: the effect's first run finds the simulation
      paused, so the initial state starts with the paused line as its only
      log line. */
  lemma MountOutcome(loadTime: int)
    ensures AfterEffect(InitialState(loadTime), loadTime, loadTime, 0)
         == InitialState(loadTime).(logs := [LogEntry(LogId(loadTime, 0), loadTime, PausedLine, Info)])
  {
    AppendLogSpec([], LogEntry(LogId(loadTime, 0), loadTime, PausedLine, Info));
  }

  /** "System reconfigured with nodes: [<ids joined by ', '>]". */
  function ConfiguredLine(nodeIds: seq<int>): string
  {
    "System reconfigured with nodes: [" + JoinIds(nodeIds) + "]"
  }

  /** `configureNodes(nodeIds)` past its guard: CONFIGURE_NODES and its
      line. */
  function AfterConfigure(s: SimulatorState, nodeIds: seq<int>, loadTime: int, now: int, nonce: nat): SimulatorState
  {
    var env := Env(loadTime, now, nonce);
    Reduce(Reduce(s, ConfigureNodes(nodeIds), env), AddLog(ConfiguredLine(nodeIds), Info), env)
  }

  /** Reconfiguring with a non-empty list: the roster is the ids in
      ascending order, all up, the largest one recorded and marked as
      leader; no message is in flight, no election runs, and the newest
      line names the ids. */
  lemma ConfigureOutcome(s: SimulatorState, nodeIds: seq<int>, loadTime: int, now: int, nonce: nat)
    requires nodeIds != []
    ensures var r := AfterConfigure(s, nodeIds, loadTime, now, nonce);
      && IntSeq.NonDecreasing(Ids(r.processes))
      && multiset(Ids(r.processes)) == multiset(nodeIds)
      && (forall i :: 0 <= i < |r.processes| ==> r.processes[i].isActive)
      && r.currentLeader.Some? && r.currentLeader.value in nodeIds
      && (forall x :: x in nodeIds ==> x <= r.currentLeader.value)
      && (forall i :: 0 <= i < |r.processes| ==> (r.processes[i].isLeader <==> Some(r.processes[i].id) == r.currentLeader))
      && r.messages == [] && !r.isElectionInProgress
      && r.logs != [] && r.logs[|r.logs| - 1].message == ConfiguredLine(nodeIds)
  {
    var env := Env(loadTime, now, nonce);
    var configured := Reduce(s, ConfigureNodes(nodeIds), env);
    ConfigureNodesSpec(s, nodeIds, env);
    AddLogSpec(configured, ConfiguredLine(nodeIds), Info, env);
  }

  /** `toggleSimulation()`: TOGGLE_SIMULATION alone. */
  function AfterSimulationToggle(s: SimulatorState, loadTime: int, now: int, nonce: nat): SimulatorState
  {
    Reduce(s, ToggleSimulation, Env(loadTime, now, nonce))
  }

  /** Starting and pausing, with the effect run the flipped flag triggers:
      the running flag flips, the heartbeat clock is set to now, and one
      line is added, saying which way it went; the roster, the leader and
      the messages stay. */
  lemma SimulationToggleOutcome(s: SimulatorState, loadTime: int, now: int, nonce: nat)
    ensures var r := AfterEffect(AfterSimulationToggle(s, loadTime, now, nonce), loadTime, now, nonce);
      var line := LogEntry(LogId(now, nonce), now, if s.isSimulationRunning then PausedLine else RunningLine, Info);
      && r.isSimulationRunning == !s.isSimulationRunning
      && r.lastHeartbeat == now
      && r.processes == s.processes && r.currentLeader == s.currentLeader && r.messages == s.messages
      && r.isElectionInProgress == s.isElectionInProgress
      && r.logs != [] && r.logs[|r.logs| - 1] == line
      && (|s.logs| < MaxLogs ==> r.logs == s.logs + [line])
  {
    var flipped := AfterSimulationToggle(s, loadTime, now, nonce);
    AddLogSpec(flipped, MonitorLine(flipped), Info, Env(loadTime, now, nonce));
  }

  /** "Process <label> elected as leader". */
  function ElectedLine(p: Process): string
  {
    "Process " + p.name + " elected as leader"
  }

  /** `updateLeader(leaderId)`: UPDATE_LEADER, and the "elected as leader"
      line when the roster lists the id. */
  function AfterUpdateLeader(s: SimulatorState, leaderId: int, loadTime: int, now: int, nonce: nat): SimulatorState
  {
    var env := Env(loadTime, now, nonce);
    var led := Reduce(s, UpdateLeader(leaderId), env);
    match BullyAlgorithm.Find(s.processes, leaderId)
    case None => led
    case Some(p) => Reduce(led, AddLog(ElectedLine(p), Leader), env)
  }

  /** Recording a leader marks exactly the processes with its id and keeps
      who is up; a listed leader is announced by label, an unlisted one
      silently. */
  lemma UpdateLeaderOutcome(s: SimulatorState, leaderId: int, loadTime: int, now: int, nonce: nat)
    ensures var r := AfterUpdateLeader(s, leaderId, loadTime, now, nonce);
      && r.currentLeader == Some(leaderId)
      && |r.processes| == |s.processes|
      && (forall i :: 0 <= i < |s.processes| ==>
            r.processes[i].id == s.processes[i].id && r.processes[i].isActive == s.processes[i].isActive
            && (r.processes[i].isLeader <==> s.processes[i].id == leaderId))
      && (BullyAlgorithm.Find(s.processes, leaderId).None? ==> r.logs == s.logs)
      && (BullyAlgorithm.Find(s.processes, leaderId).Some? ==>
            r.logs != [] && r.logs[|r.logs| - 1].message == ElectedLine(BullyAlgorithm.Find(s.processes, leaderId).value))
  {
    var env := Env(loadTime, now, nonce);
    var led := Reduce(s, UpdateLeader(leaderId), env);
    UpdateLeaderSpec(s, leaderId, env);
    var found := BullyAlgorithm.Find(s.processes, leaderId);
    if found.Some? {
      AddLogSpec(led, ElectedLine(found.value), Leader, env);
    }
  }

  // ---------------------------------------------------------------------
  // The heartbeat tick

  /** The leader the tick finds: the first process carrying the recorded
      leader's id, when it is active. */
  function LiveLeader(s: SimulatorState): (r: Option<Process>)
    ensures r.Some? ==> s.currentLeader == Some(r.value.id) && r.value in s.processes && r.value.isActive
    ensures UniqueIds(s.processes) ==> (r.Some? <==> s.currentLeader.Some? && IsActiveId(s.processes, s.currentLeader.value))
  {
    if s.currentLeader.None? then None
    else
      match BullyAlgorithm.Find(s.processes, s.currentLeader.value)
      case None => None
      case Some(p) => if p.isActive then Some(p) else None
  }

  /** What one heartbeat tick does besides UPDATE_HEARTBEAT. */
  datatype HeartbeatStep =
    | SendHeartbeats(leaderId: int, receivers: nat)  // the live leader beats to every other active process
    | DetectFailure(initiatorId: int)                // no live leader: the lowest active process starts an election
    | Idle                                           // no live leader, and nobody active or an election running

  /** The tick's decision, taken on the state it sees. */
  function HeartbeatDecision(s: SimulatorState): (r: HeartbeatStep)
    ensures r.SendHeartbeats? <==> LiveLeader(s).Some?
    ensures r.SendHeartbeats? ==> s.currentLeader == Some(r.leaderId) && IsActiveId(s.processes, r.leaderId)
    ensures r.DetectFailure? <==> LiveLeader(s).None? && AnyActive(s.processes) && !s.isElectionInProgress
    ensures r.DetectFailure? ==>
      && IsActiveId(s.processes, r.initiatorId)
      && (forall i :: 0 <= i < |s.processes| && s.processes[i].isActive ==> r.initiatorId <= s.processes[i].id)
  {
    match LiveLeader(s)
    case Some(leader) =>
      BullyAlgorithm.ActiveMember(s.processes, leader);
      SendHeartbeats(leader.id, |BullyAlgorithm.Select(s.processes, BullyAlgorithm.OtherThan(leader.id))|)
    case None =>
      var activeIds := ActiveIds(s.processes);
      ActiveIdsSpec(s.processes);
      ActiveIdsEmpty(s.processes);
      if activeIds != [] && !s.isElectionInProgress then
        assert forall i :: 0 <= i < |s.processes| && s.processes[i].isActive ==> s.processes[i].id in activeIds;
        DetectFailure(IntSeq.Min(activeIds))
      else
        Idle
  }

  /** No active id means no active process. */
  lemma ActiveIdsEmpty(ps: seq<Process>)
    ensures ActiveIds(ps) == [] <==> !AnyActive(ps)
  {
    ActiveIdsSpec(ps);
    var ids := ActiveIds(ps);
    if AnyActive(ps) {
      var i :| 0 <= i < |ps| && ps[i].isActive;
      assert ps[i].id in ids;
    }
    assert ids != [] ==> ids[0] in ids && IsActiveId(ps, ids[0]);
  }

  /** A tick that beats sends one COORDINATOR heartbeat per other active
      process: the count it logs is the number of messages, each goes from
      the leader to another active process, and every other active process
      gets one. */
  lemma HeartbeatsReachEveryFollower(s: SimulatorState, now: int, serial: nat)
    requires HeartbeatDecision(s).SendHeartbeats?
    ensures var step := HeartbeatDecision(s);
      var hb := BullyAlgorithm.CreateHeartbeatMessages(step.leaderId, s.processes, now, serial);
      && |hb| == step.receivers
      && (forall k :: 0 <= k < |hb| ==>
            hb[k].kind == COORDINATOR && hb[k].from == step.leaderId && hb[k].to != step.leaderId && IsActiveId(s.processes, hb[k].to))
      && (forall i :: 0 <= i < |s.processes| && s.processes[i].isActive && s.processes[i].id != step.leaderId ==>
            exists k :: 0 <= k < |hb| && hb[k].to == s.processes[i].id)
  {
    var step := HeartbeatDecision(s);
    var l := step.leaderId;
    var hb := BullyAlgorithm.CreateHeartbeatMessages(l, s.processes, now, serial);
    var ann := BullyAlgorithm.AnnounceCoordinator(l, s.processes, now, serial);
    BullyAlgorithm.HeartbeatsMirrorAnnouncement(l, s.processes, now, serial);
    BullyAlgorithm.AnnouncementReachesAllOthers(l, s.processes, now, serial);
    assert BullyAlgorithm.FindActive(s.processes, l).Some?;
    assert |hb| == |BullyAlgorithm.Select(s.processes, BullyAlgorithm.OtherThan(l))|;
    forall i | 0 <= i < |s.processes| && s.processes[i].isActive && s.processes[i].id != l
      ensures exists k :: 0 <= k < |hb| && hb[k].to == s.processes[i].id
    {
      var k :| 0 <= k < |ann| && ann[k].to == s.processes[i].id;
      assert hb[k].to == s.processes[i].id;
    }
  }

  /** "Leader P<id> sending heartbeat to <n> processes". */
  function BeatLine(leaderId: int, receivers: nat): string
  {
    "Leader P" + IntToString(leaderId) + " sending heartbeat to " + NatToString(receivers) + " processes"
  }

  /** "Leader failure detected! Process P<id> initiating election". */
  function FailureLine(initiatorId: int): string
  {
    "Leader failure detected! Process P" + IntToString(initiatorId) + " initiating election"
  }

  /** A tick's own dispatches, before any election it starts:
      UPDATE_HEARTBEAT, then the heartbeat line when somebody listens, or
      the failure line. */
  function AfterTick(s: SimulatorState, step: HeartbeatStep, loadTime: int, now: int, nonce: nat): SimulatorState
  {
    var env := Env(loadTime, now, nonce);
    var beat := Reduce(s, UpdateHeartbeat, env);
    match step
    case SendHeartbeats(leaderId, receivers) =>
      if receivers > 0 then Reduce(beat, AddLog(BeatLine(leaderId, receivers), Info), env) else beat
    case DetectFailure(initiatorId) => Reduce(beat, AddLog(FailureLine(initiatorId), Election), env)
    case Idle => beat
  }

  /** A tick's own dispatches move only the heartbeat clock and the log:
      the roster, the recorded leader, the messages and the election flag
      stay. */
  lemma TickKeepsState(s: SimulatorState, step: HeartbeatStep, loadTime: int, now: int, nonce: nat)
    ensures var r := AfterTick(s, step, loadTime, now, nonce);
      && r.processes == s.processes && r.currentLeader == s.currentLeader && r.messages == s.messages
      && r.isElectionInProgress == s.isElectionInProgress && r.isSimulationRunning == s.isSimulationRunning
      && r.lastHeartbeat == now
  {
  }

  /** `startElection` looks only at the roster and the election flag. */
  lemma InitiatorDependsOnRoster(s: SimulatorState, t: SimulatorState, initiatorId: Option<int>)
    requires t.processes == s.processes && t.isElectionInProgress == s.isElectionInProgress
    ensures ElectionInitiator(t, initiatorId) == ElectionInitiator(s, initiatorId)
  {
  }

  /** A tick that detects a failure starts an election: the tick's own
      dispatches leave what `startElection` looks at untouched, it finds an
      initiator, and that initiator is the lowest active process whenever
      that id is not 0 or the roster is sorted by id. */
  lemma FailureStartsElection(s: SimulatorState, loadTime: int, now: int, nonce: nat)
    requires HeartbeatDecision(s).DetectFailure?
    ensures var lowest := HeartbeatDecision(s).initiatorId;
      var ticked := AfterTick(s, HeartbeatDecision(s), loadTime, now, nonce);
      && ElectionInitiator(ticked, Some(lowest)) == ElectionInitiator(s, Some(lowest))
      && ElectionInitiator(s, Some(lowest)).Some?
      && (lowest != 0 || SortedIds(s.processes) ==> ElectionInitiator(s, Some(lowest)).value.id == lowest)
  {
    var step := HeartbeatDecision(s);
    var lowest := step.initiatorId;
    TickKeepsState(s, step, loadTime, now, nonce);
    InitiatorDependsOnRoster(s, AfterTick(s, step, loadTime, now, nonce), Some(lowest));
    var r := ElectionInitiator(s, Some(lowest));
    if lowest == 0 && SortedIds(s.processes) {
      DefaultInitiatorIsLowest(s);
      var i :| 0 <= i < |s.processes| && s.processes[i].id == lowest && s.processes[i].isActive;
      assert r.value.id <= lowest;
    }
  }

  /** In a well-formed state (the only states the reducer produces from the
      initial one), a detected failure hands the election to the lowest
      active process, whatever its id. */
  lemma WellFormedFailureElectsLowest(s: SimulatorState, loadTime: int, now: int, nonce: nat)
    requires WellFormed(s) && HeartbeatDecision(s).DetectFailure?
    ensures var lowest := HeartbeatDecision(s).initiatorId;
      var r := ElectionInitiator(AfterTick(s, HeartbeatDecision(s), loadTime, now, nonce), Some(lowest));
      && r.Some? && r.value.id == lowest
      && forall i :: 0 <= i < |s.processes| && s.processes[i].isActive ==> r.value.id <= s.processes[i].id
  {
    FailureStartsElection(s, loadTime, now, nonce);
  }

  // ---------------------------------------------------------------------
  // The provider with its orchestrator and timers

  /** The callbacks a fired timer leads to: a staggered ELECTION or reply
      is shown and logged, a timeout declares its initiator, a receiver's
      own election completes at once when nobody outranks it, and a
      heartbeat is shown. */
  function EventEffects(event: Event, due: int, serial: nat): (r: seq<EO.Effect>)
    ensures event.ElectionTimeout? ==>
      r == [EO.Log(DeclarationLine(event.processId), Leader), EO.Complete(event.processId)]
    ensures event.DeliverHeartbeat? ==> r == [EO.Emit(event.message)]
    ensures event.RestartElection? ==>
      (r == [] <==> BullyAlgorithm.StartElection(event.processId, event.processes, due, serial) != [])
    ensures forall i :: 0 <= i < |r| && r[i].Complete? ==>
      (event.ElectionTimeout? || event.RestartElection?) && r[i].leaderId == event.processId
  {
    match event
    case SendElection(m) => [EO.Emit(m), EO.Log(EO.SentLine("ELECTION", m), Election)]
    case SendResponse(m) => EO.ResponseEffects(m)
    case ElectionTimeout(p) => [EO.Log(DeclarationLine(p), Leader), EO.Complete(p)]
    case RestartElection(p, ps) => if BullyAlgorithm.StartElection(p, ps, due, serial) == [] then [EO.Complete(p)] else []
    case DeliverHeartbeat(m) => [EO.Emit(m)]
  }

  /** The timers a beating tick sets: the i-th heartbeat is shown 100 * i
      ms from now. */
  function HeartbeatTimers(hb: seq<Message>, now: int, firstHandle: nat): (r: seq<Timer>)
    ensures |r| == |hb|
    ensures forall i :: 0 <= i < |hb| ==>
      r[i].handle == firstHandle + i && r[i].due == now + 100 * i && r[i].event == DeliverHeartbeat(hb[i])
  {
    seq(|hb|, i requires 0 <= i < |hb| => Timer(firstHandle + i, now + 100 * i, DeliverHeartbeat(hb[i])))
  }

  /** `SimulatorProvider`: the reducer's state, the orchestrator kept in a
      ref, and the runtime's clock and timers. */
  class Simulator {
    /** The state `useReducer` holds. */
    var state: SimulatorState
    /** Log lines added so far; stands for the random suffix of the next log id. */
    var nonce: nat
    /** `Date.now()` when the module was loaded, which `initialState` keeps. */
    const loadTime: int
    const loop: Loop
    const orchestrator: EO.ElectionOrchestrator

    ghost predicate Valid()
      reads this, loop, orchestrator
    {
      orchestrator.Valid(loop)
    }

    /** Mounting the provider: `useReducer` starts from the initial state;
        an empty orchestrator, no timer set.  The effect's first run, which
        follows the mount, is a `HeartbeatEffect` call of its own
        (`MountOutcome` says what it leaves). */
    constructor (start: int)
      ensures Valid() && fresh(loop) && fresh(orchestrator)
      ensures loadTime == start && state == InitialState(start) && nonce == 0
      ensures loop.now == start && loop.serial == 0 && loop.timers == [] && orchestrator.pendingElections == map[]
    {
      loadTime := start;
      var l := new Loop(start);
      loop := l;
      orchestrator := new EO.ElectionOrchestrator(l);
      state := InitialState(start);
      nonce := 0;
    }

    /** `dispatch(action)`, and the provider's `addLog`, `addMessage`,
        `removeMessage` and `setElectionInProgress`, each one dispatch. */
    method Dispatch(action: Action)
      requires Valid()
      modifies this
      ensures Valid()
      ensures state == Reduce(old(state), action, Env(loadTime, loop.now, old(nonce)))
      ensures nonce == old(nonce) + (if action.AddLog? then 1 else 0)
    {
      state := Reduce(state, action, Env(loadTime, loop.now, nonce));
      if action.AddLog? {
        nonce := nonce + 1;
      }
    }

    /** Runs the orchestrator's callbacks for `effects`, in order. */
    method ApplyEffects(effects: seq<EO.Effect>)
      requires Valid()
      modifies this
      ensures Valid()
      ensures state == Apply(old(state), effects, loadTime, loop.now, old(nonce))
      ensures nonce == old(nonce) + LogCount(effects)
    {
      var i := 0;
      while i < |effects|
        invariant 0 <= i <= |effects|
        invariant Valid()
        invariant Apply(old(state), effects, loadTime, loop.now, old(nonce)) == Apply(state, effects[i..], loadTime, loop.now, nonce)
        invariant nonce + LogCount(effects[i..]) == old(nonce) + LogCount(effects)
      {
        ApplyAt(state, effects, i, loadTime, loop.now, nonce);
        ApplyEffect(effects[i]);
        i := i + 1;
      }
    }

    /** The callback for one effect. */
    method ApplyEffect(effect: EO.Effect)
      requires Valid()
      modifies this
      ensures Valid()
      ensures state == ApplyOne(old(state), effect, loadTime, loop.now, old(nonce))
      ensures nonce == old(nonce) + LogsOf(effect)
    {
      match effect {
        case Emit(m) =>
          Dispatch(AddMessage(m));
        case Log(text, logType) =>
          Dispatch(AddLog(text, logType));
        case Complete(leaderId) =>
          Dispatch(Action.UpdateLeader(leaderId));
          Dispatch(SetElectionInProgress(false));
      }
    }

    /** `toggleProcess(processId)`. */
    method ToggleProcess(processId: int)
      requires Valid()
      modifies this
      ensures Valid()
      ensures state == AfterToggle(old(state), processId, loadTime, loop.now, old(nonce))
      ensures nonce == old(nonce) + (if BullyAlgorithm.Find(old(state).processes, processId).Some? then 1 else 0)
    {
      var found := BullyAlgorithm.Find(state.processes, processId);
      if found.None? {
        return;
      }
      var p := found.value;
      Dispatch(Action.ToggleProcess(processId));
      Dispatch(AddLog(ToggleLine(p), if p.isActive then Failure else Recovery));
    }

    /** `startElection(initiatorId?)`: returns at once without an
        initiator; otherwise marks the election, logs it and hands it to
        the orchestrator with the roster it saw, whose completion callback
        may run at once. */
    method StartElection(initiatorId: Option<int>) returns (initiator: Option<Process>)
      requires Valid()
      modifies this, loop, orchestrator
      ensures Valid()
      ensures initiator == ElectionInitiator(old(state), initiatorId)
      ensures initiator.None? ==>
        state == old(state) && nonce == old(nonce) && unchanged(loop) && unchanged(orchestrator)
      ensures initiator.Some? ==> Launched(initiator.value, loadTime, old(state), old(nonce), old(loop.now), old(loop.serial),
        old(loop.timers), old(loop.nextHandle), old(orchestrator.pendingElections),
        state, nonce, loop.now, loop.serial, loop.timers, loop.nextHandle, orchestrator.pendingElections)
    {
      initiator := ElectionInitiator(state, initiatorId);
      if initiator.None? {
        return;
      }
      Launch(initiator.value);
    }

    /** What `startElection` does once it has found its initiator `p`. */
    static ghost predicate Launched(
      p: Process, loadTime: int,
      s0: SimulatorState, nonce0: nat, now0: int, serial0: nat, timers0: seq<Timer>, next0: nat, pending0: map<int, EO.PendingElection>,
      s: SimulatorState, nonce: nat, now: int, serial: nat, timers: seq<Timer>, next: nat, pending: map<int, EO.PendingElection>)
    {
      var msgs := BullyAlgorithm.StartElection(p.id, s0.processes, now0, serial0);
      && s == AfterStart(s0, p, msgs == [], loadTime, now0, nonce0)
      && nonce == nonce0 + 1
      && now == now0 && serial == serial0 + |msgs|
      && EO.Initiated(p.id, msgs, now0, pending0, timers0, next0, pending, timers, next)
    }

    /** START_ELECTION, the "Election started" line, then the orchestrator
        with the roster seen before either dispatch. */
    method Launch(p: Process)
      requires Valid()
      modifies this, loop, orchestrator
      ensures Valid()
      ensures Launched(p, loadTime, old(state), old(nonce), old(loop.now), old(loop.serial),
        old(loop.timers), old(loop.nextHandle), old(orchestrator.pendingElections),
        state, nonce, loop.now, loop.serial, loop.timers, loop.nextHandle, orchestrator.pendingElections)
    {
      var processes := state.processes;
      Dispatch(Action.StartElection(Some(p.id)));
      Dispatch(AddLog(StartedLine(p), Election));
      var effects := orchestrator.InitiateElection(p.id, processes, loop);
      ApplyEffects(effects);
    }

    /** `resetSystem()`: every pending election is cleared, then the
        initial state returns. */
    method ResetSystem()
      requires Valid()
      modifies this, loop, orchestrator
      ensures Valid()
      ensures state == AfterReset(old(state), loadTime, loop.now, old(nonce)) && nonce == old(nonce) + 1
      ensures orchestrator.pendingElections == map[]
      ensures forall t :: t in loop.timers <==> t in old(loop.timers) && !t.event.ElectionTimeout?
      ensures loop.now == old(loop.now) && loop.serial == old(loop.serial) && loop.nextHandle == old(loop.nextHandle)
    {
      orchestrator.ClearAllElections(loop);
      Dispatch(Action.ResetSystem);
      Dispatch(AddLog(ResetLine, Info));
    }

    /** `configureNodes(nodeIds)`: refused while an election runs;
        otherwise every pending election is cleared and the roster
        rebuilt. */
    method ConfigureNodes(nodeIds: seq<int>)
      requires Valid()
      modifies this, loop, orchestrator
      ensures Valid()
      ensures old(state).isElectionInProgress ==>
        state == old(state) && nonce == old(nonce) && unchanged(loop) && unchanged(orchestrator)
      ensures !old(state).isElectionInProgress ==>
        && state == AfterConfigure(old(state), nodeIds, loadTime, old(loop.now), old(nonce)) && nonce == old(nonce) + 1
        && orchestrator.pendingElections == map[]
        && (forall t :: t in loop.timers <==> t in old(loop.timers) && !t.event.ElectionTimeout?)
        && loop.now == old(loop.now) && loop.serial == old(loop.serial) && loop.nextHandle == old(loop.nextHandle)
    {
      if state.isElectionInProgress {
        return;
      }
      orchestrator.ClearAllElections(loop);
      Dispatch(Action.ConfigureNodes(nodeIds));
      Dispatch(AddLog(ConfiguredLine(nodeIds), Info));
    }

    /** `toggleSimulation()`. */
    method ToggleSimulation()
      requires Valid()
      modifies this
      ensures Valid()
      ensures state == AfterSimulationToggle(old(state), loadTime, loop.now, old(nonce)) && nonce == old(nonce)
    {
      Dispatch(Action.ToggleSimulation);
    }

    /** One run of the heartbeat effect.  The renderer runs it on mount
        (the constructor) and after every commit that changes the running
        flag, the recorded leader, the election flag or the roster array. */
    method HeartbeatEffect()
      requires Valid()
      modifies this
      ensures Valid()
      ensures state == AfterEffect(old(state), loadTime, loop.now, old(nonce)) && nonce == old(nonce) + 1
    {
      Dispatch(AddLog(MonitorLine(state), Info));
    }

    /** `updateLeader(leaderId)`. */
    method UpdateLeader(leaderId: int)
      requires Valid()
      modifies this
      ensures Valid()
      ensures state == AfterUpdateLeader(old(state), leaderId, loadTime, loop.now, old(nonce))
      ensures nonce == old(nonce) + (if BullyAlgorithm.Find(old(state).processes, leaderId).Some? then 1 else 0)
    {
      var found := BullyAlgorithm.Find(state.processes, leaderId);
      Dispatch(Action.UpdateLeader(leaderId));
      match found
      case None =>
      case Some(p) =>
        Dispatch(AddLog(ElectedLine(p), Leader));
    }

    /** One run of the 2 s heartbeat interval, which exists while the
        simulation runs: the clock is noted, then the live leader's
        heartbeats are set 100 ms apart and counted in the log, or a failed
        leader is reported and an election started from the lowest active
        process. */
    method HeartbeatTick() returns (step: HeartbeatStep, initiator: Option<Process>)
      requires Valid() && state.isSimulationRunning
      modifies this, loop, orchestrator
      ensures Valid()
      ensures step == HeartbeatDecision(old(state))
      ensures Ticked(loadTime, old(state), old(nonce), old(loop.now), old(loop.serial), old(loop.timers),
                     old(loop.nextHandle), old(orchestrator.pendingElections), step, initiator,
                     state, nonce, loop.now, loop.serial, loop.timers, loop.nextHandle, orchestrator.pendingElections)
      ensures step.DetectFailure? ==> initiator.Some?
    {
      step := HeartbeatDecision(state);
      if step.SendHeartbeats? {
        initiator := Beat(step);
      } else if step.DetectFailure? {
        FailureStartsElection(state, loadTime, loop.now, nonce);
        initiator := ReportFailure(step);
      } else {
        initiator := None;
        Dispatch(UpdateHeartbeat);
      }
    }

    /** What a tick that took `step` leaves.  Idle: only the clock noted.
        Beating: the clock noted, the heartbeat line logged when somebody
        listens, one heartbeat timer per message, nothing pending changed.
        Failure: the clock noted, the failure logged, and the election
        `startElection(lowestActive)` starts on that state. */
    static ghost predicate Ticked(
      loadTime: int, s0: SimulatorState, nonce0: nat, now0: int, serial0: nat, timers0: seq<Timer>, next0: nat,
      pending0: map<int, EO.PendingElection>, step: HeartbeatStep, initiator: Option<Process>,
      s: SimulatorState, nonce: nat, now: int, serial: nat, timers: seq<Timer>, next: nat,
      pending: map<int, EO.PendingElection>)
    {
      var ticked := AfterTick(s0, step, loadTime, now0, nonce0);
      && now == now0
      && (!step.DetectFailure? ==> initiator.None?)
      && match step
         case Idle =>
           s == ticked && nonce == nonce0 && serial == serial0 && timers == timers0 && next == next0 && pending == pending0
         case SendHeartbeats(leaderId, receivers) =>
           var hb := BullyAlgorithm.CreateHeartbeatMessages(leaderId, s0.processes, now0, serial0);
           && s == ticked
           && nonce == nonce0 + (if receivers > 0 then 1 else 0)
           && serial == serial0 + |hb|
           && timers == timers0 + HeartbeatTimers(hb, now0, next0)
           && next == next0 + |hb|
           && pending == pending0
         case DetectFailure(lowest) =>
           && initiator == ElectionInitiator(ticked, Some(lowest))
           && (initiator.Some? ==>
                 var msgs := BullyAlgorithm.StartElection(initiator.value.id, ticked.processes, now0, serial0);
                 && s == AfterStart(ticked, initiator.value, msgs == [], loadTime, now0, nonce0 + 1)
                 && nonce == nonce0 + 2
                 && serial == serial0 + |msgs|
                 && EO.Initiated(initiator.value.id, msgs, now0, pending0, timers0, next0, pending, timers, next))
    }

    /** The tick of a live leader. */
    method Beat(step: HeartbeatStep) returns (initiator: Option<Process>)
      requires Valid() && step.SendHeartbeats?
      modifies this, loop
      ensures Valid()
      ensures Ticked(loadTime, old(state), old(nonce), old(loop.now), old(loop.serial), old(loop.timers),
                     old(loop.nextHandle), old(orchestrator.pendingElections), step, initiator,
                     state, nonce, loop.now, loop.serial, loop.timers, loop.nextHandle, orchestrator.pendingElections)
    {
      initiator := None;
      var processes := state.processes;
      Dispatch(UpdateHeartbeat);
      var hb := BullyAlgorithm.CreateHeartbeatMessages(step.leaderId, processes, loop.now, loop.serial);
      var _ := loop.Reserve(|hb|);
      ScheduleHeartbeats(hb);
      if step.receivers > 0 {
        Dispatch(AddLog(BeatLine(step.leaderId, step.receivers), Info));
      }
    }

    /** The tick that found the leader down: the failure is logged and
        `startElection(lowestActive)` runs on the state the tick saw. */
    method ReportFailure(step: HeartbeatStep) returns (initiator: Option<Process>)
      requires Valid() && step.DetectFailure?
      modifies this, loop, orchestrator
      ensures Valid()
      ensures Ticked(loadTime, old(state), old(nonce), old(loop.now), old(loop.serial), old(loop.timers),
                     old(loop.nextHandle), old(orchestrator.pendingElections), step, initiator,
                     state, nonce, loop.now, loop.serial, loop.timers, loop.nextHandle, orchestrator.pendingElections)
    {
      LogFailure(step);
      ghost var ticked, ticks := state, nonce;
      initiator := StartElection(Some(step.initiatorId));
      assert initiator.Some? ==> Launched(initiator.value, loadTime, ticked, ticks, old(loop.now), old(loop.serial),
        old(loop.timers), old(loop.nextHandle), old(orchestrator.pendingElections),
        state, nonce, loop.now, loop.serial, loop.timers, loop.nextHandle, orchestrator.pendingElections);
    }

    /** The tick's own dispatches when the leader is down: the heartbeat
        clock, then the failure line. */
    method LogFailure(step: HeartbeatStep)
      requires Valid() && step.DetectFailure?
      modifies this
      ensures Valid()
      ensures state == AfterTick(old(state), step, loadTime, loop.now, old(nonce)) && nonce == old(nonce) + 1
    {
      Dispatch(UpdateHeartbeat);
      Dispatch(AddLog(FailureLine(step.initiatorId), Election));
    }

    /** `heartbeatMessages.forEach((m, index) => setTimeout(..., index *
        100))`: one ADD_MESSAGE timer per heartbeat, 100 ms apart. */
    method ScheduleHeartbeats(hb: seq<Message>)
      requires Valid()
      modifies loop
      ensures Valid()
      ensures loop.timers == old(loop.timers) + HeartbeatTimers(hb, old(loop.now), old(loop.nextHandle))
      ensures loop.nextHandle == old(loop.nextHandle) + |hb|
      ensures loop.now == old(loop.now) && loop.serial == old(loop.serial)
    {
      var now, h0 := loop.now, loop.nextHandle;
      var i := 0;
      while i < |hb|
        invariant 0 <= i <= |hb|
        invariant Valid()
        invariant loop.timers == old(loop.timers) + HeartbeatTimers(hb, now, h0)[..i]
        invariant loop.nextHandle == h0 + i && loop.now == now && loop.serial == old(loop.serial)
      {
        assert HeartbeatTimers(hb, now, h0)[..i + 1] == HeartbeatTimers(hb, now, h0)[..i] + [Timer(h0 + i, now + 100 * i, DeliverHeartbeat(hb[i]))];
        orchestrator.SetOtherTimeout(100 * i, DeliverHeartbeat(hb[i]), loop);
        i := i + 1;
      }
      assert HeartbeatTimers(hb, now, h0)[..i] == HeartbeatTimers(hb, now, h0);
    }

    /** The runtime runs the next timer due: the clock moves to its due
        time, it leaves the queue, and its callbacks run; an empty queue
        leaves everything as it is. */
    method Step() returns (k: int)
      requires Valid()
      modifies this, loop, orchestrator
      ensures Valid()
      ensures k == -1 <==> old(loop.timers) == []
      ensures k == -1 ==> state == old(state) && nonce == old(nonce) && unchanged(loop) && unchanged(orchestrator)
      ensures k != -1 ==> IsNext(old(loop.timers), k)
      ensures k != -1 ==>
        var fired := old(loop.timers)[k];
        var effects := EventEffects(fired.event, fired.due, old(loop.serial));
        && loop.now == fired.due
        && state == Apply(old(state), effects, loadTime, fired.due, old(nonce))
        && nonce == old(nonce) + LogCount(effects)
        && (!fired.event.RestartElection? ==> loop.timers == RemoveAt(old(loop.timers), k))
        && (fired.event.ElectionTimeout? ==>
              orchestrator.pendingElections == old(orchestrator.pendingElections) - {fired.event.processId})
        && (!fired.event.ElectionTimeout? && !fired.event.RestartElection? ==>
              orchestrator.pendingElections == old(orchestrator.pendingElections))
        && (fired.event.RestartElection? ==>
              EO.Initiated(fired.event.processId,
                           BullyAlgorithm.StartElection(fired.event.processId, fired.event.processes, fired.due, old(loop.serial)),
                           fired.due, old(orchestrator.pendingElections), RemoveAt(old(loop.timers), k), old(loop.nextHandle),
                           orchestrator.pendingElections, loop.timers, loop.nextHandle))
    {
      k := loop.NextTimer();
      if k == -1 {
        return;
      }
      var effects;
      if loop.timers[k].event.DeliverHeartbeat? {
        EO.TracksTakeOther(orchestrator.pendingElections, loop.timers, k);
        var event := loop.Take(k);
        effects := [EO.Emit(event.message)];
      } else {
        effects := orchestrator.Fire(k, loop);
      }
      ApplyEffects(effects);
    }
  }
}
