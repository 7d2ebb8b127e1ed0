/** The records of the simulator (src/types/index.ts): processes, messages,
    log entries and the whole simulator state.  Canvas positions are not
    part of this model. */
module Types {

  datatype Option<T> = None | Some(value: T)

  /** The three Bully message kinds. */
  datatype MessageType = ELECTION | OK | COORDINATOR

  /** Categories of log lines. */
  datatype LogType = Info | Election | Failure | Recovery | Leader

  /** One simulated process; `name` is the source's `label`, "P" followed by the id. */
  datatype Process = Process(id: int, name: string, isActive: bool, isLeader: bool)

  /** One animated message.  `progress` and `animationSpeed` are fractions
      in the source and are kept as reals. */
  datatype Message = Message(
    id: string,
    kind: MessageType,
    from: int,
    to: int,
    progress: real,
    timestamp: int,
    duration: int,
    animationSpeed: real,
    startTime: int,
    priority: int)

  /** One log line; `timestamp` is the injected clock value. */
  datatype LogEntry = LogEntry(id: string, timestamp: int, message: string, logType: LogType)

  /** The reducer's state.  `currentLeader` is `null` in the source when no
      process is leader, here `None`. */
  datatype SimulatorState = SimulatorState(
    processes: seq<Process>,
    messages: seq<Message>,
    logs: seq<LogEntry>,
    currentLeader: Option<int>,
    isElectionInProgress: bool,
    isSimulationRunning: bool,
    lastHeartbeat: int)

  /** The roster's ids, in roster order. */
  function Ids(ps: seq<Process>): (r: seq<int>)
    ensures |r| == |ps|
    ensures forall i :: 0 <= i < |ps| ==> r[i] == ps[i].id
  {
    seq(|ps|, i requires 0 <= i < |ps| => ps[i].id)
  }

  /** Some process with this id is active. */
  predicate IsActiveId(ps: seq<Process>, id: int)
  {
    exists i :: 0 <= i < |ps| && ps[i].id == id && ps[i].isActive
  }

  /** Some process is active. */
  predicate AnyActive(ps: seq<Process>)
  {
    exists i :: 0 <= i < |ps| && ps[i].isActive
  }

  /** No two processes share an id. */
  predicate UniqueIds(ps: seq<Process>)
  {
    forall i, j :: 0 <= i < j < |ps| ==> ps[i].id != ps[j].id
  }

  /** Ids are strictly increasing along the roster (sorted and unique). */
  predicate SortedIds(ps: seq<Process>)
  {
    forall i, j :: 0 <= i < j < |ps| ==> ps[i].id < ps[j].id
  }

  /** Every id is a positive number. */
  predicate PositiveIds(ps: seq<Process>)
  {
    forall i :: 0 <= i < |ps| ==> ps[i].id > 0
  }
}
