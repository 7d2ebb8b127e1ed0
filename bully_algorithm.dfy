/** The message rules of the Bully algorithm (src/services/BullyAlgorithm.ts):
    side-effect-free functions from a roster snapshot to the ELECTION, OK and
    COORDINATOR messages a process sends.  The clock value and the serial
    number that make each message id unique are parameters. */
module BullyAlgorithm {
  import opened Types
  import opened Text
  import IntSeq
  import opened AnimationConfig

  /** Which processes a roster query picks. */
  datatype Selector =
    | HigherThan(id: int)  // active, with a larger id
    | OtherThan(id: int)   // active, with a different id
    | AllActive            // active

  predicate Selects(sel: Selector, p: Process)
  {
    p.isActive &&
    match sel
    case HigherThan(id) => p.id > id
    case OtherThan(id) => p.id != id
    case AllActive => true
  }

  /** `processes.filter(...)` with one of the three conditions above: the
      selected processes, in roster order. */
  function Select(ps: seq<Process>, sel: Selector): (r: seq<Process>)
    ensures |r| <= |ps|
    ensures forall p :: p in r <==> p in ps && Selects(sel, p)
  {
    if ps == [] then []
    else
      assert ps == [ps[0]] + ps[1..];
      (if Selects(sel, ps[0]) then [ps[0]] else []) + Select(ps[1..], sel)
  }

  /** Filtering a roster sorted by id leaves it sorted by id. */
  lemma {:induction false} SelectKeepsOrder(ps: seq<Process>, sel: Selector)
    requires SortedIds(ps)
    ensures SortedIds(Select(ps, sel))
  {
    if ps != [] {
      SelectKeepsOrder(ps[1..], sel);
      var rest := Select(ps[1..], sel);
      forall k | 0 <= k < |rest|
        ensures ps[0].id < rest[k].id
      {
        assert rest[k] in ps[1..];
        var j :| 0 <= j < |ps[1..]| && ps[1..][j] == rest[k];
        assert ps[j + 1] == rest[k];
      }
    }
  }

  /** Index of the first process with this id (and active, if asked), or -1. */
  function FirstIndex(ps: seq<Process>, id: int, activeOnly: bool): (k: int)
    ensures -1 <= k < |ps|
    ensures k >= 0 ==> ps[k].id == id && (activeOnly ==> ps[k].isActive)
    ensures k >= 0 ==> forall j :: 0 <= j < k ==> !(ps[j].id == id && (activeOnly ==> ps[j].isActive))
    ensures k == -1 ==> forall j :: 0 <= j < |ps| ==> !(ps[j].id == id && (activeOnly ==> ps[j].isActive))
  {
    if ps == [] then -1
    else if ps[0].id == id && (activeOnly ==> ps[0].isActive) then 0
    else
      var k := FirstIndex(ps[1..], id, activeOnly);
      if k == -1 then -1 else k + 1
  }

  /** `processes.find(p => p.id === id)`. */
  function Find(ps: seq<Process>, id: int): (r: Option<Process>)
    ensures r.Some? ==> r.value in ps && r.value.id == id
    ensures r.None? <==> forall i :: 0 <= i < |ps| ==> ps[i].id != id
  {
    var k := FirstIndex(ps, id, false);
    if k == -1 then None else Some(ps[k])
  }

  /** `processes.find(p => p.id === id && p.isActive)`. */
  function FindActive(ps: seq<Process>, id: int): (r: Option<Process>)
    ensures r.Some? <==> IsActiveId(ps, id)
    ensures r.Some? ==> r.value in ps && r.value.id == id && r.value.isActive
  {
    var k := FirstIndex(ps, id, true);
    if k == -1 then None else Some(ps[k])
  }

  /** The id `createMessage` draws from the clock and a random suffix; here
      the suffix is an injected serial number. */
  function MessageId(now: int, serial: nat): string
  {
    "msg-" + IntToString(now) + "-" + NatToString(serial)
  }

  /** `createMessage(type, from, to, isHeartbeat)` at clock value `now`: a
      message that has not moved yet, started now, timed by the table. */
  function CreateMessage(kind: MessageType, from: int, to: int, isHeartbeat: bool, now: int, serial: nat): (m: Message)
    ensures m.kind == kind && m.from == from && m.to == to
    ensures m.progress == 0.0 && m.timestamp == now && m.startTime == now
    ensures m.duration == GetMessageConfig(kind, isHeartbeat).duration
    ensures m.priority == GetMessageConfig(kind, isHeartbeat).priority
    ensures m.animationSpeed == GetMessageConfig(kind, isHeartbeat).animationSpeed
  {
    var config := GetMessageConfig(kind, isHeartbeat);
    Message(MessageId(now, serial), kind, from, to, 0.0, now, config.duration, config.animationSpeed, now, config.priority)
  }

  /** `targets.map(t => createMessage(kind, from, t.id, isHeartbeat))`; the
      i-th message takes serial number `serial + i`. */
  function MessagesTo(kind: MessageType, from: int, targets: seq<Process>, isHeartbeat: bool, now: int, serial: nat): (r: seq<Message>)
    ensures |r| == |targets|
    ensures forall i :: 0 <= i < |r| ==> r[i] == CreateMessage(kind, from, targets[i].id, isHeartbeat, now, serial + i)
  {
    seq(|targets|, i requires 0 <= i < |targets| => CreateMessage(kind, from, targets[i].id, isHeartbeat, now, serial + i))
  }

  /** `getElectionTargets(processId, processes)`: the active processes with a
      larger id, in roster order. */
  function GetElectionTargets(processId: int, ps: seq<Process>): (r: seq<Process>)
    ensures forall p :: p in r <==> p in ps && p.isActive && p.id > processId
  {
    Select(ps, HigherThan(processId))
  }

  /** A listed active process makes its id an active id. */
  lemma ActiveMember(ps: seq<Process>, p: Process)
    requires p in ps && p.isActive
    ensures IsActiveId(ps, p.id)
  {
    var i :| 0 <= i < |ps| && ps[i] == p;
  }

  /** `startElection(processId, processes)`: nothing from an unknown or
      inactive initiator; otherwise one ELECTION to every active process with
      a larger id (see `StartElectionReachesAllHigher`), in roster order. */
  function StartElection(processId: int, ps: seq<Process>, now: int, serial: nat): (r: seq<Message>)
    ensures !IsActiveId(ps, processId) ==> r == []
    ensures IsActiveId(ps, processId) ==> |r| == |GetElectionTargets(processId, ps)|
    ensures forall i :: 0 <= i < |r| ==>
      r[i].kind == ELECTION && r[i].from == processId && processId < r[i].to && IsActiveId(ps, r[i].to)
  {
    if FindActive(ps, processId).None? then []
    else
      var targets := GetElectionTargets(processId, ps);
      forall k | 0 <= k < |targets|
        ensures IsActiveId(ps, targets[k].id) && targets[k].id > processId
      {
        assert targets[k] in targets;
        ActiveMember(ps, targets[k]);
      }
      MessagesTo(ELECTION, processId, targets, false, now, serial)
  }

  /** An active initiator sends ELECTION to every active process with a
      larger id, and over a roster sorted by id it does so in ascending
      order of the receiver. */
  lemma StartElectionReachesAllHigher(processId: int, ps: seq<Process>, now: int, serial: nat)
    requires IsActiveId(ps, processId)
    ensures var r := StartElection(processId, ps, now, serial);
      forall i :: 0 <= i < |ps| && ps[i].isActive && ps[i].id > processId ==>
        exists k :: 0 <= k < |r| && r[k].to == ps[i].id
    ensures var r := StartElection(processId, ps, now, serial);
      SortedIds(ps) ==> forall i, j :: 0 <= i < j < |r| ==> r[i].to < r[j].to
  {
    var targets := GetElectionTargets(processId, ps);
    var r := StartElection(processId, ps, now, serial);
    forall i | 0 <= i < |ps| && ps[i].isActive && ps[i].id > processId
      ensures exists k :: 0 <= k < |r| && r[k].to == ps[i].id
    {
      assert ps[i] in targets;
      var k :| 0 <= k < |targets| && targets[k] == ps[i];
      assert r[k].to == ps[i].id;
    }
    if SortedIds(ps) {
      SelectKeepsOrder(ps, HigherThan(processId));
    }
  }

  /** `handleElectionMessage(to, from, processes)`: nothing from an unknown
      or inactive receiver; otherwise an OK back to the sender, followed by
      the receiver's own election. */
  function HandleElectionMessage(to: int, from: int, ps: seq<Process>, now: int, serial: nat): (r: seq<Message>)
    ensures !IsActiveId(ps, to) ==> r == []
    ensures IsActiveId(ps, to) ==>
      && |r| == 1 + |GetElectionTargets(to, ps)|
      && r[0].kind == OK && r[0].from == to && r[0].to == from
      && r[1..] == StartElection(to, ps, now, serial + 1)
  {
    if FindActive(ps, to).None? then []
    else [CreateMessage(OK, to, from, false, now, serial)] + StartElection(to, ps, now, serial + 1)
  }

  /** `announceCoordinator(leaderId, processes)`: nothing from an unknown or
      inactive leader; otherwise one COORDINATOR to every other active
      process (see `AnnouncementReachesAllOthers`), never to the leader. */
  function AnnounceCoordinator(leaderId: int, ps: seq<Process>, now: int, serial: nat): (r: seq<Message>)
    ensures !IsActiveId(ps, leaderId) ==> r == []
    ensures forall i :: 0 <= i < |r| ==>
      r[i].kind == COORDINATOR && r[i].from == leaderId && r[i].to != leaderId && IsActiveId(ps, r[i].to)
    ensures IsActiveId(ps, leaderId) ==>
      var others := Select(ps, OtherThan(leaderId));
      |r| == |others| && forall i :: 0 <= i < |r| ==> r[i].to == others[i].id
  {
    if FindActive(ps, leaderId).None? then []
    else
      var targets := Select(ps, OtherThan(leaderId));
      forall k | 0 <= k < |targets|
        ensures IsActiveId(ps, targets[k].id) && targets[k].id != leaderId
      {
        assert targets[k] in targets;
        ActiveMember(ps, targets[k]);
      }
      MessagesTo(COORDINATOR, leaderId, targets, false, now, serial)
  }

  /** An active leader announces itself to every other active process;
      on a roster sorted by id the recipients ascend, so each of them hears
      it exactly once. */
  lemma AnnouncementReachesAllOthers(leaderId: int, ps: seq<Process>, now: int, serial: nat)
    requires IsActiveId(ps, leaderId)
    ensures var r := AnnounceCoordinator(leaderId, ps, now, serial);
      forall i :: 0 <= i < |ps| && ps[i].isActive && ps[i].id != leaderId ==>
        exists k :: 0 <= k < |r| && r[k].to == ps[i].id
    ensures var r := AnnounceCoordinator(leaderId, ps, now, serial);
      SortedIds(ps) ==> forall i, j :: 0 <= i < j < |r| ==> r[i].to < r[j].to
  {
    var targets := Select(ps, OtherThan(leaderId));
    var r := AnnounceCoordinator(leaderId, ps, now, serial);
    if SortedIds(ps) {
      SelectKeepsOrder(ps, OtherThan(leaderId));
    }
    forall i | 0 <= i < |ps| && ps[i].isActive && ps[i].id != leaderId
      ensures exists k :: 0 <= k < |r| && r[k].to == ps[i].id
    {
      assert ps[i] in targets;
      var k :| 0 <= k < |targets| && targets[k] == ps[i];
      assert r[k].to == ps[i].id;
    }
  }

  /** `findHighestActiveProcess(processes)`: -1 when nobody is active,
      otherwise the largest active id. */
  function FindHighestActiveProcess(ps: seq<Process>): (r: int)
    ensures !AnyActive(ps) ==> r == -1
    ensures AnyActive(ps) ==> IsActiveId(ps, r)
    ensures forall i :: 0 <= i < |ps| && ps[i].isActive ==> ps[i].id <= r
  {
    var active := Select(ps, AllActive);
    if |active| == 0 then
      assert forall i :: 0 <= i < |ps| ==> ps[i] in ps;
      -1
    else
      var ids := Ids(active);
      var m := IntSeq.Max(ids);
      forall i | 0 <= i < |ps| && ps[i].isActive
        ensures ps[i].id <= m
      {
        assert ps[i] in active;
        var k :| 0 <= k < |active| && active[k] == ps[i];
        assert ids[k] == ps[i].id;
      }
      var k :| 0 <= k < |ids| && ids[k] == m;
      assert active[k] in active;
      ActiveMember(ps, active[k]);
      m
  }

  /** With positive ids, -1 is returned exactly when no process is active. */
  lemma HighestActiveSentinel(ps: seq<Process>)
    requires PositiveIds(ps)
    ensures FindHighestActiveProcess(ps) == -1 <==> !AnyActive(ps)
  {
    if AnyActive(ps) {
      var i :| 0 <= i < |ps| && ps[i].isActive;
      assert ps[i].id <= FindHighestActiveProcess(ps);
    }
  }

  /** `shouldBecomeLeader(processId, processes)`: no active process has a
      larger id. */
  function ShouldBecomeLeader(processId: int, ps: seq<Process>): (r: bool)
    ensures r <==> forall i :: 0 <= i < |ps| && ps[i].isActive ==> ps[i].id <= processId
  {
    var higher := GetElectionTargets(processId, ps);
    assert forall i :: 0 <= i < |ps| && ps[i].isActive && ps[i].id > processId ==> ps[i] in higher;
    assert higher != [] ==> higher[0] in ps;
    |higher| == 0
  }

  /** For an active process, self-proclamation, an empty election and an
      empty target list are the same condition, and it holds exactly when the
      process is the highest active one. */
  lemma SelfProclaimIffNoElection(processId: int, ps: seq<Process>, now: int, serial: nat)
    requires IsActiveId(ps, processId)
    ensures ShouldBecomeLeader(processId, ps) <==> StartElection(processId, ps, now, serial) == []
    ensures ShouldBecomeLeader(processId, ps) <==> GetElectionTargets(processId, ps) == []
    ensures ShouldBecomeLeader(processId, ps) <==> FindHighestActiveProcess(ps) == processId
  {
    var top := FindHighestActiveProcess(ps);
    assert AnyActive(ps);
    var i :| 0 <= i < |ps| && ps[i].id == top && ps[i].isActive;
    if !ShouldBecomeLeader(processId, ps) {
      var j :| 0 <= j < |ps| && ps[j].isActive && ps[j].id > processId;
      assert ps[j] in GetElectionTargets(processId, ps);
    }
  }

  /** `canParticipateInElection(processId, processes)`: the first process
      with that id is active; false for an unknown id. */
  function CanParticipateInElection(processId: int, ps: seq<Process>): (r: bool)
    ensures r ==> IsActiveId(ps, processId)
    ensures (forall i :: 0 <= i < |ps| ==> ps[i].id != processId) ==> !r
    ensures UniqueIds(ps) ==> (r <==> IsActiveId(ps, processId))
  {
    match Find(ps, processId)
    case Some(p) => p.isActive
    case None => false
  }

  /** `createHeartbeatMessages(leaderId, processes)`: COORDINATOR messages
      with the heartbeat timing and a `heartbeat-` id prefix. */
  function CreateHeartbeatMessages(leaderId: int, ps: seq<Process>, now: int, serial: nat): (r: seq<Message>)
    ensures forall m :: m in r ==> m.duration == 1000 && m.priority == 1
  {
    if FindActive(ps, leaderId).None? then []
    else
      var targets := Select(ps, OtherThan(leaderId));
      seq(|targets|, i requires 0 <= i < |targets| =>
        var m := CreateMessage(COORDINATOR, leaderId, targets[i].id, true, now, serial + i);
        m.(id := "heartbeat-" + m.id))
  }

  /** Heartbeats go exactly where a coordinator announcement goes, in the
      same order; only the id prefix and the timing differ. */
  lemma HeartbeatsMirrorAnnouncement(leaderId: int, ps: seq<Process>, now: int, serial: nat)
    ensures
      var hb, ann := CreateHeartbeatMessages(leaderId, ps, now, serial), AnnounceCoordinator(leaderId, ps, now, serial);
      && |hb| == |ann|
      && forall i :: 0 <= i < |hb| ==>
        && hb[i].kind == ann[i].kind == COORDINATOR
        && hb[i].from == ann[i].from && hb[i].to == ann[i].to
        && hb[i].id == "heartbeat-" + ann[i].id
        && hb[i].duration == 1000 && hb[i].priority == 1
  {
    if FindActive(ps, leaderId).Some? {
      var targets := Select(ps, OtherThan(leaderId));
      var hb, ann := CreateHeartbeatMessages(leaderId, ps, now, serial), AnnounceCoordinator(leaderId, ps, now, serial);
      assert ann == MessagesTo(COORDINATOR, leaderId, targets, false, now, serial);
      assert |hb| == |targets|;
      forall i | 0 <= i < |hb|
        ensures hb[i].kind == ann[i].kind == COORDINATOR
        ensures hb[i].from == ann[i].from && hb[i].to == ann[i].to
        ensures hb[i].id == "heartbeat-" + ann[i].id
      {
        var m := CreateMessage(COORDINATOR, leaderId, targets[i].id, true, now, serial + i);
        assert hb[i] == m.(id := "heartbeat-" + m.id);
        assert ann[i] == CreateMessage(COORDINATOR, leaderId, targets[i].id, false, now, serial + i);
      }
    }
  }
}
