/** The state transitions of the simulator (src/services/SimulatorContext.tsx):
    building a roster from a list of ids, the initial state, and the
    reducer that applies one action to the whole state. */
module SimulatorReducer {
  import opened Types
  import opened Text
  import IntSeq
  import BullyAlgorithm

  /** The actions the reducer understands. */
  datatype Action =
    | ToggleProcess(processId: int)
    | StartElection(initiatorId: Option<int>)
    | ResetSystem
    | AddLog(text: string, logType: LogType)
    | AddMessage(message: Message)
    | RemoveMessage(messageId: string)
    | UpdateLeader(leaderId: int)
    | SetElectionInProgress(inProgress: bool)
    | ConfigureNodes(nodeIds: seq<int>)
    | ToggleSimulation
    | UpdateHeartbeat

  /** What the reducer reads from outside: the clock value when the module
      was loaded (which `initialState` keeps), `Date.now()` at the dispatch,
      and the random suffix of a new log id. */
  datatype Env = Env(loadTime: int, now: int, nonce: nat)

  /** A process's label, "P" and its id. */
  function Label(id: int): string
  {
    "P" + IntToString(id)
  }

  /** The roster the simulator starts from and returns to on reset. */
  function DefaultNodeIds(): seq<int> { [1, 2, 3, 4, 5] }

  /** At most this many log lines are kept. */
  const MaxLogs: nat := 100

  /** One active, labelled process per id of `sorted`, in that order; the
      one carrying `highest` leads. */
  function Roster(sorted: seq<int>, highest: int): (ps: seq<Process>)
    ensures |ps| == |sorted|
    ensures forall i :: 0 <= i < |ps| ==> ps[i].id == sorted[i] && ps[i].isActive && ps[i].name == Label(sorted[i])
    ensures forall i :: 0 <= i < |ps| ==> (ps[i].isLeader <==> sorted[i] == highest)
  {
    seq(|sorted|, i requires 0 <= i < |sorted| => Process(sorted[i], Label(sorted[i]), true, sorted[i] == highest))
  }

  /** `initializeProcesses(nodeIds)`: the ids in ascending order, every
      process active and labelled, the highest id the leader. */
  function InitializeProcesses(nodeIds: seq<int>): (ps: seq<Process>)
    ensures |ps| == |nodeIds|
  {
    var sorted := IntSeq.Sort(nodeIds);
    if sorted == [] then [] else Roster(sorted, IntSeq.Max(sorted))
  }

  /** A fresh roster lists `Sort(nodeIds)` in order, every process active
      and labelled, and leading exactly when it carries the largest id. */
  lemma InitializeProcessesShape(nodeIds: seq<int>)
    ensures var ps := InitializeProcesses(nodeIds);
      && Ids(ps) == IntSeq.Sort(nodeIds)
      && (forall i :: 0 <= i < |ps| ==> ps[i].isActive && ps[i].name == Label(ps[i].id))
      && (nodeIds != [] ==> forall i :: 0 <= i < |ps| ==> (ps[i].isLeader <==> ps[i].id == IntSeq.Max(nodeIds)))
  {
    var sorted := IntSeq.Sort(nodeIds);
    IntSeq.SortSpec(nodeIds);
    if nodeIds != [] {
      MaxOfPermutation(sorted, nodeIds);
      assert InitializeProcesses(nodeIds) == Roster(sorted, IntSeq.Max(sorted));
    } else {
      assert sorted == [];
    }
  }

  /** `Math.max` does not depend on the order of its arguments. */
  lemma MaxOfPermutation(xs: seq<int>, ys: seq<int>)
    requires xs != [] && multiset(xs) == multiset(ys)
    ensures ys != [] && IntSeq.Max(xs) == IntSeq.Max(ys)
  {
    assert |ys| == |multiset(ys)| == |xs|;
    var mx, my := IntSeq.Max(xs), IntSeq.Max(ys);
    assert mx in multiset(ys) && my in multiset(xs);
    var i :| 0 <= i < |ys| && ys[i] == mx;
    var j :| 0 <= j < |xs| && xs[j] == my;
  }

  /** A fresh roster is sorted by id, holds exactly the given ids, every
      process is active and labelled, and the leaders are the processes
      with the largest id. */
  lemma InitializeProcessesSpec(nodeIds: seq<int>)
    ensures var ps := InitializeProcesses(nodeIds);
      && IntSeq.NonDecreasing(Ids(ps))
      && multiset(Ids(ps)) == multiset(nodeIds)
      && (forall i :: 0 <= i < |ps| ==> ps[i].isActive && ps[i].name == Label(ps[i].id))
      && (forall i :: 0 <= i < |ps| ==> (ps[i].isLeader <==> forall j :: 0 <= j < |ps| ==> ps[j].id <= ps[i].id))
  {
    InitializeProcessesShape(nodeIds);
    IntSeq.SortSpec(nodeIds);
    var ps := InitializeProcesses(nodeIds);
    if nodeIds != [] {
      forall i | 0 <= i < |ps|
        ensures ps[i].isLeader <==> forall j :: 0 <= j < |ps| ==> ps[j].id <= ps[i].id
      {
        LeaderIsMaximal(nodeIds, ps, i);
      }
    }
  }

  /** In a fresh roster, a process carrying the largest id is no smaller
      than any other, and one that is no smaller than any other carries it. */
  lemma LeaderIsMaximal(nodeIds: seq<int>, ps: seq<Process>, i: int)
    requires nodeIds != [] && ps == InitializeProcesses(nodeIds) && 0 <= i < |ps|
    ensures ps[i].id == IntSeq.Max(nodeIds) <==> forall j :: 0 <= j < |ps| ==> ps[j].id <= ps[i].id
  {
    InitializeProcessesShape(nodeIds);
    var sorted := IntSeq.Sort(nodeIds);
    IntSeq.SortSpec(nodeIds);
    MaxOfPermutation(sorted, nodeIds);
    var m := IntSeq.Max(sorted);
    var k :| 0 <= k < |sorted| && sorted[k] == m;
    assert Ids(ps) == sorted;
    assert ps[k].id == m;
    forall j | 0 <= j < |ps|
      ensures ps[j].id <= m
    {
      assert ps[j].id == sorted[j];
    }
    if ps[i].id != m {
      assert ps[k].id > ps[i].id;
    }
  }

  /** For ids without repeats, a fresh roster's ids are strictly increasing
      and exactly one process leads. */
  lemma InitializeProcessesUnique(nodeIds: seq<int>)
    requires IntSeq.NoDuplicates(nodeIds)
    ensures var ps := InitializeProcesses(nodeIds);
      && SortedIds(ps)
      && (nodeIds != [] ==> exists i :: 0 <= i < |ps| && ps[i].isLeader)
      && (forall i, j :: 0 <= i < |ps| && 0 <= j < |ps| && ps[i].isLeader && ps[j].isLeader ==> i == j)
  {
    InitializeProcessesShape(nodeIds);
    InitializeProcessesSorted(nodeIds);
    var ps := InitializeProcesses(nodeIds);
    if nodeIds != [] {
      var sorted := IntSeq.Sort(nodeIds);
      IntSeq.SortSpec(nodeIds);
      var m := IntSeq.Max(nodeIds);
      assert m in multiset(sorted);
      var k :| 0 <= k < |sorted| && sorted[k] == m;
      assert Ids(ps)[k] == m;
      assert ps[k].isLeader;
    }
  }

  /** For ids without repeats, a fresh roster's ids are strictly increasing. */
  lemma InitializeProcessesSorted(nodeIds: seq<int>)
    requires IntSeq.NoDuplicates(nodeIds)
    ensures SortedIds(InitializeProcesses(nodeIds))
  {
    InitializeProcessesShape(nodeIds);
    var ps := InitializeProcesses(nodeIds);
    var sorted := IntSeq.Sort(nodeIds);
    IntSeq.SortSpec(nodeIds);
    forall i, j | 0 <= i < j < |ps|
      ensures ps[i].id < ps[j].id
    {
      NoDuplicatesPermutation(nodeIds, sorted, i, j);
      assert ps[i].id == Ids(ps)[i] == sorted[i];
      assert ps[j].id == Ids(ps)[j] == sorted[j];
    }
  }

  /** A value without repeats in a list occurs there once. */
  lemma CountOne(xs: seq<int>, a: int)
    requires IntSeq.NoDuplicates(xs) && 0 <= a < |xs|
    ensures multiset(xs)[xs[a]] == 1
  {
    var x := xs[a];
    assert xs == xs[..a] + [x] + xs[a + 1..];
    assert forall b :: 0 <= b < |xs| && b != a ==> xs[b] != x;
    assert x !in xs[..a];
    assert x !in xs[a + 1..];
  }

  /** Two positions holding the same value make it occur twice. */
  lemma CountTwo(ys: seq<int>, i: int, j: int)
    requires 0 <= i < j < |ys|
    ensures ys[i] == ys[j] ==> multiset(ys)[ys[i]] >= 2
  {
    assert ys == ys[..i] + [ys[i]] + ys[i + 1..j] + [ys[j]] + ys[j + 1..];
  }

  /** A permutation of a list without repeats has none either. */
  lemma NoDuplicatesPermutation(xs: seq<int>, ys: seq<int>, i: int, j: int)
    requires IntSeq.NoDuplicates(xs) && multiset(xs) == multiset(ys)
    requires 0 <= i < j < |ys|
    ensures ys[i] != ys[j]
  {
    assert ys[i] in multiset(xs);
    var a :| 0 <= a < |xs| && xs[a] == ys[i];
    CountOne(xs, a);
    CountTwo(ys, i, j);
  }

  /** `initialState`: the default roster, P5 leading, nothing in flight,
      the simulation paused. */
  function InitialState(loadTime: int): (s: SimulatorState)
    ensures s.currentLeader == Some(5) && s.messages == [] && s.logs == []
    ensures !s.isElectionInProgress && !s.isSimulationRunning && s.lastHeartbeat == loadTime
  {
    SimulatorState(InitializeProcesses(DefaultNodeIds()), [], [], Some(5), false, false, loadTime)
  }

  /** The default roster is P1 to P5, all active, P5 alone leading. */
  lemma InitialRoster(loadTime: int)
    ensures var ps := InitialState(loadTime).processes;
      && Ids(ps) == DefaultNodeIds()
      && (forall i :: 0 <= i < |ps| ==> ps[i].isActive)
      && (forall i :: 0 <= i < |ps| ==> (ps[i].isLeader <==> ps[i].id == 5))
  {
    RosterOfAscending(DefaultNodeIds());
  }

  /** The roster of ids already ascending keeps their order, and the last
      one leads. */
  lemma RosterOfAscending(xs: seq<int>)
    requires xs != [] && IntSeq.NonDecreasing(xs)
    ensures var ps := InitializeProcesses(xs);
      && Ids(ps) == xs
      && (forall i :: 0 <= i < |ps| ==> ps[i].isActive)
      && (forall i :: 0 <= i < |ps| ==> (ps[i].isLeader <==> ps[i].id == xs[|xs| - 1]))
  {
    InitializeProcessesShape(xs);
    IntSeq.SortOfSorted(xs);
    var m := IntSeq.Max(xs);
    assert xs[|xs| - 1] <= m;
  }

  /** `processes.filter(p => p.isActive).map(p => p.id)`. */
  function ActiveIds(ps: seq<Process>): seq<int>
  {
    Ids(BullyAlgorithm.Select(ps, BullyAlgorithm.AllActive))
  }

  /** The active ids are the ids of the active processes. */
  lemma ActiveIdsSpec(ps: seq<Process>)
    ensures forall x :: x in ActiveIds(ps) <==> IsActiveId(ps, x)
  {
    var active := BullyAlgorithm.Select(ps, BullyAlgorithm.AllActive);
    var r := ActiveIds(ps);
    forall x | x in r
      ensures IsActiveId(ps, x)
    {
      var k :| 0 <= k < |r| && r[k] == x;
      assert active[k] in active;
      BullyAlgorithm.ActiveMember(ps, active[k]);
    }
    forall x | IsActiveId(ps, x)
      ensures x in r
    {
      var i :| 0 <= i < |ps| && ps[i].id == x && ps[i].isActive;
      assert ps[i] in active;
      var k :| 0 <= k < |active| && active[k] == ps[i];
      assert r[k] == x;
    }
  }

  /** The flag flip of TOGGLE_PROCESS, before a new leader is marked: the
      matching process changes state and nobody leads. */
  function Flip(ps: seq<Process>, processId: int): (r: seq<Process>)
    ensures |r| == |ps|
  {
    seq(|ps|, i requires 0 <= i < |ps| =>
      if ps[i].id == processId then ps[i].(isActive := !ps[i].isActive, isLeader := false)
      else ps[i].(isLeader := false))
  }

  /** `processes.find(p => p.id === id)!.isLeader = true` on a fresh copy. */
  function MarkLeader(ps: seq<Process>, id: int): seq<Process>
  {
    var k := BullyAlgorithm.FirstIndex(ps, id, false);
    if k == -1 then ps else ps[k := ps[k].(isLeader := true)]
  }

  /** Marking keeps ids, labels and activity; only a process with the
      given id may become leader, and with unique ids it does. */
  lemma MarkLeaderSpec(ps: seq<Process>, id: int)
    ensures var r := MarkLeader(ps, id);
      && |r| == |ps|
      && (forall i :: 0 <= i < |ps| ==> r[i].id == ps[i].id && r[i].name == ps[i].name && r[i].isActive == ps[i].isActive)
      && (forall i :: 0 <= i < |ps| && r[i].isLeader ==> ps[i].isLeader || ps[i].id == id)
      && (UniqueIds(ps) ==> forall i :: 0 <= i < |ps| && ps[i].id == id ==> r[i].isLeader)
  {
  }

  /** TOGGLE_PROCESS: flips the process, then makes the highest active
      process the leader.  `if (newLeader)` skips the marking for id 0,
      which JavaScript treats as false. */
  function Toggle(s: SimulatorState, processId: int): (r: SimulatorState)
  {
    var flipped := Flip(s.processes, processId);
    var activeIds := ActiveIds(flipped);
    var newLeader := if |activeIds| > 0 then Some(IntSeq.Max(activeIds)) else None;
    var processes := if newLeader.Some? && newLeader.value != 0 then MarkLeader(flipped, newLeader.value) else flipped;
    s.(processes := processes, currentLeader := newLeader)
  }

  /** The id part of a log entry: `log-<now>-<random>`. */
  function LogId(now: int, nonce: nat): string
  {
    "log-" + IntToString(now) + "-" + NatToString(nonce)
  }

  /** `[...logs, entry].slice(-100)`: the newest entry last, at most
      `MaxLogs` kept. */
  function AppendLog(logs: seq<LogEntry>, entry: LogEntry): seq<LogEntry>
  {
    LastN(logs + [entry], MaxLogs)
  }

  /** The appended entry is the newest; the older ones kept are the newest
      of `logs`, all of them while there is room. */
  lemma AppendLogSpec(logs: seq<LogEntry>, entry: LogEntry)
    ensures var r := AppendLog(logs, entry);
      && 0 < |r| <= MaxLogs && r[|r| - 1] == entry
      && r[..|r| - 1] == logs[|logs| + 1 - |r|..]
      && (|logs| < MaxLogs ==> r == logs + [entry])
      && (logs != [] ==> |r| >= 2 && r[|r| - 2] == logs[|logs| - 1])
  {
    var all := logs + [entry];
    var r := AppendLog(logs, entry);
    assert r == all[|all| - |r|..];
    assert r[..|r| - 1] == all[|all| - |r|..|all| - 1];
    if logs != [] {
      assert |all| >= 2 && MaxLogs >= 2;
      assert r[|r| - 2] == all[|all| - |r|..][|r| - 2] == all[|all| - 2] == logs[|logs| - 1];
    }
  }

  /** `xs.slice(-n)`: the last `n` elements, or all of them. */
  function LastN<T>(xs: seq<T>, n: nat): (r: seq<T>)
    ensures |r| == if |xs| <= n then |xs| else n
    ensures r == xs[|xs| - |r|..]
  {
    if |xs| <= n then xs else xs[|xs| - n..]
  }

  /** `messages.filter(msg => msg.id !== messageId)`. */
  function WithoutMessage(ms: seq<Message>, messageId: string): (r: seq<Message>)
    ensures forall m :: m in r <==> m in ms && m.id != messageId
  {
    if ms == [] then []
    else
      assert ms == [ms[0]] + ms[1..];
      (if ms[0].id == messageId then [] else [ms[0]]) + WithoutMessage(ms[1..], messageId)
  }

  /** `processes.map(p => ({ ...p, isLeader: p.id === leaderId }))`. */
  function SetLeader(ps: seq<Process>, leaderId: int): (r: seq<Process>)
    ensures |r| == |ps|
  {
    seq(|ps|, i requires 0 <= i < |ps| => ps[i].(isLeader := ps[i].id == leaderId))
  }

  /** `simulatorReducer(state, action)`.  CONFIGURE_NODES with an empty
      list records `Math.max()` of nothing, minus infinity, as the leader in
      the source; no process carries that id, and here no leader is
      recorded. */
  function Reduce(s: SimulatorState, action: Action, env: Env): (r: SimulatorState)
  {
    match action
    case ToggleProcess(processId) => Toggle(s, processId)
    case StartElection(_) => s.(isElectionInProgress := true)
    case ResetSystem => InitialState(env.loadTime)  // a fresh copy of the same roster
    case AddLog(message, logType) =>
      s.(logs := AppendLog(s.logs, LogEntry(LogId(env.now, env.nonce), env.now, message, logType)))
    case AddMessage(message) => s.(messages := s.messages + [message])
    case RemoveMessage(messageId) => s.(messages := WithoutMessage(s.messages, messageId))
    case UpdateLeader(leaderId) => s.(processes := SetLeader(s.processes, leaderId), currentLeader := Some(leaderId))
    case SetElectionInProgress(inProgress) => s.(isElectionInProgress := inProgress)
    case ConfigureNodes(nodeIds) =>
      s.(processes := InitializeProcesses(nodeIds), currentLeader := if nodeIds == [] then None else Some(IntSeq.Max(nodeIds)),
         messages := [], isElectionInProgress := false)
    case ToggleSimulation => s.(isSimulationRunning := !s.isSimulationRunning, lastHeartbeat := env.now)
    case UpdateHeartbeat => s.(lastHeartbeat := env.now)
  }

  // ---------------------------------------------------------------------
  // TOGGLE_PROCESS

  /** TOGGLE_PROCESS changes the activity of the matching processes only;
      ids, labels, the roster order and everything but the roster and the
      leader stay. */
  lemma ToggleFlipsOnlyTarget(s: SimulatorState, processId: int, env: Env)
    ensures var r := Reduce(s, ToggleProcess(processId), env);
      && |r.processes| == |s.processes|
      && (forall i :: 0 <= i < |s.processes| ==>
            && r.processes[i].id == s.processes[i].id
            && r.processes[i].name == s.processes[i].name
            && (r.processes[i].isActive <==>
                  if s.processes[i].id == processId then !s.processes[i].isActive else s.processes[i].isActive))
      && r.messages == s.messages && r.logs == s.logs
      && r.isElectionInProgress == s.isElectionInProgress
      && r.isSimulationRunning == s.isSimulationRunning && r.lastHeartbeat == s.lastHeartbeat
  {
    var flipped := Flip(s.processes, processId);
    var activeIds := ActiveIds(flipped);
    if activeIds != [] {
      MarkLeaderSpec(flipped, IntSeq.Max(activeIds));
    }
  }

  /** After TOGGLE_PROCESS the recorded leader is the highest active id, or
      none when nobody is active, and only that process can lead. */
  lemma ToggleElectsHighest(s: SimulatorState, processId: int)
    ensures var r := Toggle(s, processId);
      && (!AnyActive(r.processes) ==> r.currentLeader == None && forall i :: 0 <= i < |r.processes| ==> !r.processes[i].isLeader)
      && (AnyActive(r.processes) ==>
            && r.currentLeader.Some?
            && IsActiveId(r.processes, r.currentLeader.value)
            && forall i :: 0 <= i < |r.processes| && r.processes[i].isActive ==> r.processes[i].id <= r.currentLeader.value)
      && (forall i :: 0 <= i < |r.processes| && r.processes[i].isLeader ==> r.currentLeader == Some(r.processes[i].id))
  {
    var flipped := Flip(s.processes, processId);
    FlipShape(s.processes, processId);
    HighestActive(flipped);
    if AnyActive(flipped) {
      var m := IntSeq.Max(ActiveIds(flipped));
      MarkLeaderSpec(flipped, m);
      MarkKeepsActivity(flipped, m);
    }
  }

  /** The highest active id exists exactly when some process is active; it
      belongs to an active process and bounds every active id. */
  lemma HighestActive(ps: seq<Process>)
    ensures AnyActive(ps) <==> ActiveIds(ps) != []
    ensures AnyActive(ps) ==>
      && IsActiveId(ps, IntSeq.Max(ActiveIds(ps)))
      && forall i :: 0 <= i < |ps| && ps[i].isActive ==> ps[i].id <= IntSeq.Max(ActiveIds(ps))
  {
    var activeIds := ActiveIds(ps);
    ActiveIdsSpec(ps);
    assert activeIds != [] ==> IsActiveId(ps, activeIds[0]);
    if AnyActive(ps) {
      var i :| 0 <= i < |ps| && ps[i].isActive;
      assert IsActiveId(ps, ps[i].id);
      var m := IntSeq.Max(activeIds);
      forall j | 0 <= j < |ps| && ps[j].isActive
        ensures ps[j].id <= m
      {
        assert IsActiveId(ps, ps[j].id);
        var k :| 0 <= k < |activeIds| && activeIds[k] == ps[j].id;
      }
    }
  }

  /** Marking a leader changes no activity. */
  lemma MarkKeepsActivity(ps: seq<Process>, id: int)
    ensures AnyActive(MarkLeader(ps, id)) <==> AnyActive(ps)
    ensures forall x :: IsActiveId(MarkLeader(ps, id), x) <==> IsActiveId(ps, x)
  {
    var r := MarkLeader(ps, id);
    MarkLeaderSpec(ps, id);
    if AnyActive(ps) {
      var i :| 0 <= i < |ps| && ps[i].isActive;
      assert r[i].isActive;
    }
    forall x | IsActiveId(ps, x)
      ensures IsActiveId(r, x)
    {
      var i :| 0 <= i < |ps| && ps[i].id == x && ps[i].isActive;
      assert r[i].id == x && r[i].isActive;
    }
  }

  /** With unique positive ids, the highest active process chosen by
      TOGGLE_PROCESS is the one process marked as leader (positivity rules
      out the skipped marking for id 0). */
  lemma ToggleSingleLeader(s: SimulatorState, processId: int)
    requires UniqueIds(s.processes) && PositiveIds(s.processes)
    ensures var r := Toggle(s, processId);
      AnyActive(r.processes) ==>
        forall i :: 0 <= i < |r.processes| ==> (r.processes[i].isLeader <==> Some(r.processes[i].id) == r.currentLeader)
  {
    var flipped := Flip(s.processes, processId);
    FlipShape(s.processes, processId);
    HighestActive(flipped);
    if AnyActive(flipped) {
      var m := IntSeq.Max(ActiveIds(flipped));
      var j :| 0 <= j < |flipped| && flipped[j].id == m && flipped[j].isActive;
      MarkOnlyLeader(flipped, m);
    }
  }

  /** Marking `id` in a roster with unique ids and no leader marks leaves
      exactly the processes with that id marked. */
  lemma MarkOnlyLeader(ps: seq<Process>, id: int)
    requires UniqueIds(ps)
    requires forall i :: 0 <= i < |ps| ==> !ps[i].isLeader
    ensures var r := MarkLeader(ps, id);
      forall k :: 0 <= k < |r| ==> (r[k].isLeader <==> r[k].id == id)
  {
    MarkLeaderSpec(ps, id);
  }

  /** Flipping keeps every id, so it keeps ids unique and positive, and it
      clears every leader mark. */
  lemma FlipShape(ps: seq<Process>, processId: int)
    ensures var r := Flip(ps, processId);
      && (forall i :: 0 <= i < |r| ==> r[i].id == ps[i].id && !r[i].isLeader)
      && (UniqueIds(ps) ==> UniqueIds(r))
      && (PositiveIds(ps) ==> PositiveIds(r))
  {
  }

  // ---------------------------------------------------------------------
  // CONFIGURE_NODES and RESET_SYSTEM

  /** CONFIGURE_NODES builds a fresh roster from the ids, records the
      largest id as leader, drops every message and ends any election;
      logs and the simulation flags stay. */
  lemma ConfigureNodesSpec(s: SimulatorState, nodeIds: seq<int>, env: Env)
    requires nodeIds != []
    ensures var r := Reduce(s, ConfigureNodes(nodeIds), env);
      && IntSeq.NonDecreasing(Ids(r.processes))
      && multiset(Ids(r.processes)) == multiset(nodeIds)
      && (forall i :: 0 <= i < |r.processes| ==> r.processes[i].isActive)
      && r.currentLeader.Some? && r.currentLeader.value in nodeIds
      && (forall x :: x in nodeIds ==> x <= r.currentLeader.value)
      && (forall i :: 0 <= i < |r.processes| ==> (r.processes[i].isLeader <==> Some(r.processes[i].id) == r.currentLeader))
      && (IntSeq.NoDuplicates(nodeIds) ==> SortedIds(r.processes))
    ensures var r := Reduce(s, ConfigureNodes(nodeIds), env);
      && r.messages == [] && !r.isElectionInProgress
      && r.logs == s.logs && r.isSimulationRunning == s.isSimulationRunning && r.lastHeartbeat == s.lastHeartbeat
  {
    var r := Reduce(s, ConfigureNodes(nodeIds), env);
    FreshRosterLeader(r, nodeIds);
    FreshRosterOrder(r, nodeIds);
  }

  /** A state whose roster is fresh from `nodeIds` lists the ids in
      order, each as often as given. */
  lemma FreshRosterOrder(r: SimulatorState, nodeIds: seq<int>)
    requires r.processes == InitializeProcesses(nodeIds)
    ensures IntSeq.NonDecreasing(Ids(r.processes))
    ensures multiset(Ids(r.processes)) == multiset(nodeIds)
    ensures IntSeq.NoDuplicates(nodeIds) ==> SortedIds(r.processes)
  {
    InitializeProcessesShape(nodeIds);
    IntSeq.SortSpec(nodeIds);
    if IntSeq.NoDuplicates(nodeIds) {
      InitializeProcessesSorted(nodeIds);
    }
  }

  /** A state whose roster is fresh from `nodeIds` and whose recorded leader
      is their largest id has every process active and exactly that one
      process leading. */
  lemma FreshRosterLeader(r: SimulatorState, nodeIds: seq<int>)
    requires nodeIds != []
    requires r.processes == InitializeProcesses(nodeIds) && r.currentLeader == Some(IntSeq.Max(nodeIds))
    ensures forall i :: 0 <= i < |r.processes| ==> r.processes[i].isActive
    ensures r.currentLeader.Some? && r.currentLeader.value in nodeIds
    ensures forall x :: x in nodeIds ==> x <= r.currentLeader.value
    ensures forall i :: 0 <= i < |r.processes| ==> (r.processes[i].isLeader <==> Some(r.processes[i].id) == r.currentLeader)
  {
    InitializeProcessesShape(nodeIds);
    var m := IntSeq.Max(nodeIds);
    forall x | x in nodeIds
      ensures x <= m
    {
      var a :| 0 <= a < |nodeIds| && nodeIds[a] == x;
    }
  }

  /** RESET_SYSTEM restores the initial state, whatever came before: the
      default roster, P5 leading, no messages or logs, nothing running. */
  lemma ResetRestoresInitial(s: SimulatorState, env: Env)
    ensures Reduce(s, ResetSystem, env) == InitialState(env.loadTime)
    ensures var ps := Reduce(s, ResetSystem, env).processes;
      && Ids(ps) == DefaultNodeIds()
      && (forall i :: 0 <= i < |ps| ==> ps[i].isActive)
      && (forall i :: 0 <= i < |ps| ==> (ps[i].isLeader <==> ps[i].id == 5))
  {
    InitialRoster(env.loadTime);
  }

  /** Resetting twice is resetting once; `initialState.lastHeartbeat` is the
      load-time clock value, so even the timestamp agrees. */
  lemma ResetIdempotent(s: SimulatorState, env: Env, env': Env)
    requires env'.loadTime == env.loadTime
    ensures Reduce(Reduce(s, ResetSystem, env), ResetSystem, env') == Reduce(s, ResetSystem, env)
  {
  }

  // ---------------------------------------------------------------------
  // Logs and messages

  /** ADD_LOG appends the entry as the newest, keeps at most 100 entries and
      drops only the oldest; below the bound nothing is dropped. */
  lemma AddLogSpec(s: SimulatorState, message: string, logType: LogType, env: Env)
    ensures var r := Reduce(s, AddLog(message, logType), env);
      var entry := LogEntry(LogId(env.now, env.nonce), env.now, message, logType);
      && |r.logs| <= MaxLogs
      && r.logs != [] && r.logs[|r.logs| - 1] == entry
      && r.logs[..|r.logs| - 1] == s.logs[|s.logs| + 1 - |r.logs|..]
      && (|s.logs| < MaxLogs ==> r.logs == s.logs + [entry])
      && r == s.(logs := r.logs)
  {
    AppendLogSpec(s.logs, LogEntry(LogId(env.now, env.nonce), env.now, message, logType));
  }

  /** ADD_MESSAGE appends the message and nothing else. */
  lemma AddMessageSpec(s: SimulatorState, m: Message, env: Env)
    ensures var r := Reduce(s, AddMessage(m), env);
      r.messages[..|s.messages|] == s.messages && |r.messages| == |s.messages| + 1 && r.messages[|s.messages|] == m
      && r == s.(messages := r.messages)
  {
  }

  /** REMOVE_MESSAGE keeps the other messages in order: it works piece by
      piece over a split list. */
  lemma {:induction false} WithoutMessageAppend(a: seq<Message>, b: seq<Message>, messageId: string)
    ensures WithoutMessage(a + b, messageId) == WithoutMessage(a, messageId) + WithoutMessage(b, messageId)
  {
    if a != [] {
      assert (a + b)[0] == a[0];
      assert (a + b)[1..] == a[1..] + b;
      WithoutMessageAppend(a[1..], b, messageId);
      var head := if a[0].id == messageId then [] else [a[0]];
      var wa, wb := WithoutMessage(a[1..], messageId), WithoutMessage(b, messageId);
      assert WithoutMessage(a + b, messageId) == head + (wa + wb);
      assert WithoutMessage(a, messageId) == head + wa;
      assert head + (wa + wb) == (head + wa) + wb;
    } else {
      assert a + b == b;
    }
  }

  /** Removing an id no message carries changes nothing. */
  lemma {:induction false} WithoutAbsentMessage(ms: seq<Message>, messageId: string)
    requires forall i :: 0 <= i < |ms| ==> ms[i].id != messageId
    ensures WithoutMessage(ms, messageId) == ms
  {
    if ms != [] {
      WithoutAbsentMessage(ms[1..], messageId);
    }
  }

  /** Adding a message and removing its id undoes the addition, along with
      any older message of the same id. */
  lemma AddThenRemove(s: SimulatorState, m: Message, env: Env, env': Env)
    ensures Reduce(Reduce(s, AddMessage(m), env), RemoveMessage(m.id), env').messages
         == WithoutMessage(s.messages, m.id)
  {
    WithoutMessageAppend(s.messages, [m], m.id);
    assert WithoutMessage([m], m.id) == [];
  }

  // ---------------------------------------------------------------------
  // UPDATE_LEADER and the leader invariant

  /** UPDATE_LEADER marks exactly the processes with that id and records it;
      activity, ids and order stay. */
  lemma UpdateLeaderSpec(s: SimulatorState, leaderId: int, env: Env)
    ensures var r := Reduce(s, UpdateLeader(leaderId), env);
      && r.currentLeader == Some(leaderId)
      && |r.processes| == |s.processes|
      && (forall i :: 0 <= i < |s.processes| ==>
            && r.processes[i].id == s.processes[i].id
            && r.processes[i].isActive == s.processes[i].isActive
            && (r.processes[i].isLeader <==> s.processes[i].id == leaderId))
      && r == s.(processes := r.processes, currentLeader := Some(leaderId))
  {
  }

  /** Every process marked as leader is the recorded leader. */
  predicate LeaderConsistent(s: SimulatorState)
  {
    forall i :: 0 <= i < |s.processes| && s.processes[i].isLeader ==> s.currentLeader == Some(s.processes[i].id)
  }

  /** Ids in strictly increasing order (so unique) and a consistent
      leader mark: the roster `initializeProcesses` builds, which the
      election code scans in array order. */
  predicate WellFormed(s: SimulatorState)
  {
    SortedIds(s.processes) && LeaderConsistent(s)
  }

  /** A well-formed state has at most one leading process. */
  lemma AtMostOneLeader(s: SimulatorState, i: int, j: int)
    requires WellFormed(s)
    requires 0 <= i < |s.processes| && 0 <= j < |s.processes|
    requires s.processes[i].isLeader && s.processes[j].isLeader
    ensures i == j
  {
  }

  /** The default ids are strictly increasing. */
  lemma DefaultIdsAscending()
    ensures DefaultNodeIds() != [] && IntSeq.StrictlyIncreasing(DefaultNodeIds())
    ensures DefaultNodeIds()[|DefaultNodeIds()| - 1] == 5
  {
  }

  /** The initial state is well formed. */
  lemma InitialWellFormed(loadTime: int)
    ensures WellFormed(InitialState(loadTime))
  {
    DefaultIdsAscending();
    AscendingRosterWellFormed(InitialState(loadTime), DefaultNodeIds());
  }

  /** A state holding the fresh roster of strictly increasing ids, with the
      last id recorded as leader, is well formed. */
  lemma AscendingRosterWellFormed(s: SimulatorState, ids: seq<int>)
    requires ids != [] && IntSeq.StrictlyIncreasing(ids)
    requires s.processes == InitializeProcesses(ids) && s.currentLeader == Some(ids[|ids| - 1])
    ensures WellFormed(s)
  {
    RosterOfAscending(ids);
    forall i, j | 0 <= i < j < |s.processes|
      ensures s.processes[i].id < s.processes[j].id
    {
      assert Ids(s.processes)[i] == ids[i];
      assert Ids(s.processes)[j] == ids[j];
    }
  }

  /** Every action keeps a state well formed, when CONFIGURE_NODES gets ids
      without repeats. */
  lemma ReducePreservesWellFormed(s: SimulatorState, action: Action, env: Env)
    requires WellFormed(s)
    requires action.ConfigureNodes? ==> IntSeq.NoDuplicates(action.nodeIds)
    ensures WellFormed(Reduce(s, action, env))
  {
    match action
    case ToggleProcess(processId) =>
      ToggleFlipsOnlyTarget(s, processId, env);
      ToggleElectsHighest(s, processId);
      var r := Reduce(s, action, env);
      assert forall i :: 0 <= i < |r.processes| ==> r.processes[i].id == s.processes[i].id;
    case ResetSystem =>
      ResetRestoresInitial(s, env);
      InitialWellFormed(env.loadTime);
    case ConfigureNodes(nodeIds) =>
      if nodeIds != [] {
        ConfigureNodesSpec(s, nodeIds, env);
      }
    case UpdateLeader(leaderId) =>
      UpdateLeaderSpec(s, leaderId, env);
    case _ =>
  }
}
