/** Message timing: how long each kind of message stays visible, how fast it
    moves and which one is drawn on top (src/config/AnimationConfig.ts). */
module AnimationConfig {
  import opened Types

  /** Durations in milliseconds; `animationSpeed` is the base progress step. */
  datatype Config = Config(
    electionMessageDuration: int,
    okMessageDuration: int,
    coordinatorMessageDuration: int,
    heartbeatMessageDuration: int,
    animationSpeed: real)

  const DefaultAnimationConfig := Config(3000, 2500, 2000, 1000, 0.005)

  /** Display priority per message kind; higher is drawn on top. */
  datatype Priorities = Priorities(election: int, ok: int, coordinator: int, heartbeat: int)

  const MessagePriorities := Priorities(3, 2, 2, 1)

  /** What `getMessageConfig` returns. */
  datatype MessageConfig = MessageConfig(duration: int, animationSpeed: real, priority: int)

  /** `getMessageConfig(type, isHeartbeat)`: a heartbeat is configured the
      same whatever its kind; otherwise the kind decides. */
  function GetMessageConfig(kind: MessageType, isHeartbeat: bool): (r: MessageConfig)
    ensures 0 < r.duration
    ensures r.priority == MessagePriorities.heartbeat <==> isHeartbeat
    ensures r.animationSpeed == (if isHeartbeat then 2.0 else 1.0) * DefaultAnimationConfig.animationSpeed
  {
    var config := DefaultAnimationConfig;
    if isHeartbeat then
      MessageConfig(config.heartbeatMessageDuration, config.animationSpeed * 2.0, MessagePriorities.heartbeat)
    else
      match kind
      case ELECTION => MessageConfig(config.electionMessageDuration, config.animationSpeed, MessagePriorities.election)
      case OK => MessageConfig(config.okMessageDuration, config.animationSpeed, MessagePriorities.ok)
      case COORDINATOR => MessageConfig(config.coordinatorMessageDuration, config.animationSpeed, MessagePriorities.coordinator)
  }

  /** A heartbeat lasts 1000 ms at priority 1, whatever its kind. */
  lemma HeartbeatConfig(kind: MessageType)
    ensures GetMessageConfig(kind, true).duration == 1000
    ensures GetMessageConfig(kind, true).priority == 1
  {
  }

  /** The protocol messages: ELECTION 3000 ms / 3, OK 2500 ms / 2,
      COORDINATOR 2000 ms / 2. */
  lemma ProtocolConfigTable()
    ensures GetMessageConfig(ELECTION, false).duration == 3000 && GetMessageConfig(ELECTION, false).priority == 3
    ensures GetMessageConfig(OK, false).duration == 2500 && GetMessageConfig(OK, false).priority == 2
    ensures GetMessageConfig(COORDINATOR, false).duration == 2000 && GetMessageConfig(COORDINATOR, false).priority == 2
  {
  }

  /** ELECTION is drawn above every other message, and a heartbeat below
      every protocol message. */
  lemma PriorityOrder(kind: MessageType, other: MessageType)
    ensures kind != ELECTION ==>
      forall hb :: GetMessageConfig(ELECTION, false).priority > GetMessageConfig(kind, hb).priority
    ensures GetMessageConfig(kind, true).priority < GetMessageConfig(other, false).priority
  {
  }

  /** A heartbeat disappears sooner than any protocol message. */
  lemma HeartbeatIsShortest(kind: MessageType, other: MessageType)
    ensures GetMessageConfig(kind, true).duration < GetMessageConfig(other, false).duration
  {
  }

  /** Heartbeats move at twice the base speed. */
  lemma HeartbeatSpeedDoubled(kind: MessageType)
    ensures GetMessageConfig(kind, true).animationSpeed == 2.0 * GetMessageConfig(kind, false).animationSpeed
  {
  }
}
