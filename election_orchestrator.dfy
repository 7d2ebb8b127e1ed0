/** The election bookkeeping of src/services/ElectionOrchestrator.ts: a map
    from process id to the election that process is waiting on, and the
    timers that send its messages and end it.  The callbacks the source
    receives (`onMessage`, `onLog`, `onElectionComplete`) are returned as a
    list of effects for the caller to apply, in call order. */
module ElectionOrchestrator {
  import opened Types
  import opened Text
  import opened BullyAlgorithm
  import opened EventLoop

  /** An entry of `pendingElections`: the handle of the 4 s timeout and
      whether the process still waits for an OK. */
  datatype PendingElection = PendingElection(timeout: nat, waitingForOk: bool)

  /** One call of a callback the caller passed in. */
  datatype Effect =
    | Emit(message: Message)              // onMessage
    | Log(text: string, logType: LogType) // onLog
    | Complete(leaderId: int)             // onElectionComplete

  /** "Process P<from> sent <kind> to Process P<to>". */
  function SentLine(kindName: string, m: Message): string
  {
    "Process P" + IntToString(m.from) + " sent " + kindName + " to Process P" + IntToString(m.to)
  }

  /** The timers `forEach` sets for `msgs`, the i-th after `step * i` ms. */
  function Staggered(msgs: seq<Message>, now: int, step: nat, firstHandle: nat, response: bool): (r: seq<Timer>)
    ensures |r| == |msgs|
    ensures forall i :: 0 <= i < |msgs| ==>
      r[i].handle == firstHandle + i && r[i].due == now + step * i && !r[i].event.ElectionTimeout?
  {
    seq(|msgs|, i requires 0 <= i < |msgs| =>
      Timer(firstHandle + i, now + step * i, if response then SendResponse(msgs[i]) else SendElection(msgs[i])))
  }

  /** What the timer of one response does when it fires: OK and ELECTION
      are emitted and logged; any other kind is dropped. */
  function ResponseEffects(m: Message): (r: seq<Effect>)
    ensures m.kind == COORDINATOR <==> r == []
    ensures r != [] ==> r[0] == Emit(m) && |r| == 2 && r[1].Log? && r[1].logType == Election
  {
    match m.kind
    case OK => [Emit(m), Log(SentLine("OK", m), Election)]
    case ELECTION => [Emit(m), Log(SentLine("ELECTION", m), Election)]
    case COORDINATOR => []
  }

  /** Some response is an OK. */
  predicate HasOk(rs: seq<Message>)
  {
    exists i :: 0 <= i < |rs| && rs[i].kind == OK
  }

  /** `responses.find(r => r.type === 'OK')`: the first OK, if any. */
  method FindOk(rs: seq<Message>) returns (r: Option<Message>)
    ensures r.Some? <==> HasOk(rs)
    ensures r.Some? ==> r.value.kind == OK
    ensures r.Some? ==> exists i :: 0 <= i < |rs| && rs[i] == r.value && forall j :: 0 <= j < i ==> rs[j].kind != OK
  {
    var i := 0;
    while i < |rs|
      invariant 0 <= i <= |rs|
      invariant forall j :: 0 <= j < i ==> rs[j].kind != OK
    {
      if rs[i].kind == OK {
        return Some(rs[i]);
      }
      i := i + 1;
    }
    return None;
  }

  /** The receiver answers with an OK, and so restarts an election, exactly
      when it is an active process of the roster. */
  lemma RestartIffReceiverActive(to: int, from: int, ps: seq<Process>, now: int, serial: nat)
    ensures HasOk(BullyAlgorithm.HandleElectionMessage(to, from, ps, now, serial)) <==> IsActiveId(ps, to)
  {
    var rs := BullyAlgorithm.HandleElectionMessage(to, from, ps, now, serial);
    if IsActiveId(ps, to) {
      assert rs[0].kind == OK;
    }
  }

  /** The pending map and the timer queue agree: every entry waits for an OK
      and owns a live timeout timer for its process, and every live timeout
      timer is the one its process's entry names. */
  ghost predicate Tracks(pending: map<int, PendingElection>, ts: seq<Timer>)
  {
    && (forall p :: p in pending ==>
          && pending[p].waitingForOk
          && exists t :: t in ts && t.handle == pending[p].timeout && t.event == ElectionTimeout(p))
    && (forall t :: t in ts && t.event.ElectionTimeout? ==>
          t.event.processId in pending && pending[t.event.processId].timeout == t.handle)
  }

  /** The queue after `clearElection(p)` cancels `p`'s timeout, if any. */
  function Cancelled(ts: seq<Timer>, pending: map<int, PendingElection>, p: int): seq<Timer>
  {
    if p in pending then Without(ts, pending[p].timeout) else ts
  }

  lemma SameHandleSameTimer(ts: seq<Timer>, a: Timer, b: Timer)
    requires HandlesIncreasing(ts) && a in ts && b in ts && a.handle == b.handle
    ensures a == b
  {
    var i :| 0 <= i < |ts| && ts[i] == a;
    var j :| 0 <= j < |ts| && ts[j] == b;
    assert i == j;
  }

  /** Cancelling one entry's timeout and dropping the entry keeps the two in
      agreement. */
  lemma TracksCancel(pending: map<int, PendingElection>, ts: seq<Timer>, p: int)
    requires Tracks(pending, ts) && HandlesIncreasing(ts)
    ensures Tracks(pending - {p}, Cancelled(ts, pending, p))
  {
    if p in pending {
      var h := pending[p].timeout;
      var tp :| tp in ts && tp.handle == h && tp.event == ElectionTimeout(p);
      var rest := pending - {p};
      var ts' := Without(ts, h);
      forall q | q in rest
        ensures exists t :: t in ts' && t.handle == rest[q].timeout && t.event == ElectionTimeout(q)
      {
        var t :| t in ts && t.handle == pending[q].timeout && t.event == ElectionTimeout(q);
        if t.handle == h {
          SameHandleSameTimer(ts, t, tp);
        }
        assert t in ts';
      }
    }
  }

  /** A timer that is not a timeout leaves the agreement as it is. */
  lemma TracksAppendOther(pending: map<int, PendingElection>, ts: seq<Timer>, t: Timer)
    requires Tracks(pending, ts) && !t.event.ElectionTimeout?
    ensures Tracks(pending, ts + [t])
  {
    forall p | p in pending
      ensures exists u :: u in ts + [t] && u.handle == pending[p].timeout && u.event == ElectionTimeout(p)
    {
      var u :| u in ts && u.handle == pending[p].timeout && u.event == ElectionTimeout(p);
      assert u in ts + [t];
    }
  }

  /** A fresh timeout for a process without an entry, recorded as its entry. */
  lemma TracksAppendTimeout(pending: map<int, PendingElection>, ts: seq<Timer>, t: Timer)
    requires Tracks(pending, ts) && t.event.ElectionTimeout? && t.event.processId !in pending
    ensures Tracks(pending[t.event.processId := PendingElection(t.handle, true)], ts + [t])
  {
    var p := t.event.processId;
    var pending' := pending[p := PendingElection(t.handle, true)];
    forall q | q in pending'
      ensures exists u :: u in ts + [t] && u.handle == pending'[q].timeout && u.event == ElectionTimeout(q)
    {
      if q == p {
        assert t in ts + [t];
      } else {
        var u :| u in ts && u.handle == pending[q].timeout && u.event == ElectionTimeout(q);
        assert u in ts + [t];
      }
    }
  }

  /** Where a timer of `RemoveAt(ts, k)` sat in `ts`. */
  lemma RemoveAtSource(ts: seq<Timer>, k: int, u: Timer) returns (j: int)
    requires 0 <= k < |ts| && u in RemoveAt(ts, k)
    ensures 0 <= j < |ts| && j != k && ts[j] == u
  {
    var r := RemoveAt(ts, k);
    var i :| 0 <= i < |r| && r[i] == u;
    j := if i < k then i else i + 1;
  }

  lemma RemoveAtKeeps(ts: seq<Timer>, k: int, j: int)
    requires 0 <= k < |ts| && 0 <= j < |ts| && j != k
    ensures ts[j] in RemoveAt(ts, k)
  {
    if j < k {
      assert RemoveAt(ts, k)[j] == ts[j];
    } else {
      assert RemoveAt(ts, k)[j - 1] == ts[j];
    }
  }

  /** Firing a timer that is not a timeout keeps the agreement. */
  lemma TracksTakeOther(pending: map<int, PendingElection>, ts: seq<Timer>, k: int)
    requires Tracks(pending, ts) && 0 <= k < |ts| && !ts[k].event.ElectionTimeout?
    ensures Tracks(pending, RemoveAt(ts, k))
  {
    var r := RemoveAt(ts, k);
    forall q | q in pending
      ensures exists u :: u in r && u.handle == pending[q].timeout && u.event == ElectionTimeout(q)
    {
      var u :| u in ts && u.handle == pending[q].timeout && u.event == ElectionTimeout(q);
      var i :| 0 <= i < |ts| && ts[i] == u;
      RemoveAtKeeps(ts, k, i);
    }
    forall u | u in r && u.event.ElectionTimeout?
      ensures u.event.processId in pending && pending[u.event.processId].timeout == u.handle
    {
      var j := RemoveAtSource(ts, k, u);
    }
  }

  /** Firing a timeout keeps the agreement once its entry is dropped. */
  lemma TracksTakeTimeout(pending: map<int, PendingElection>, ts: seq<Timer>, k: int)
    requires Tracks(pending, ts) && HandlesIncreasing(ts) && 0 <= k < |ts| && ts[k].event.ElectionTimeout?
    ensures Tracks(pending - {ts[k].event.processId}, RemoveAt(ts, k))
  {
    var r := RemoveAt(ts, k);
    var p := ts[k].event.processId;
    var rest := pending - {p};
    forall q | q in rest
      ensures exists u :: u in r && u.handle == rest[q].timeout && u.event == ElectionTimeout(q)
    {
      var u :| u in ts && u.handle == pending[q].timeout && u.event == ElectionTimeout(q);
      var i :| 0 <= i < |ts| && ts[i] == u;
      RemoveAtKeeps(ts, k, i);
    }
    forall u | u in r && u.event.ElectionTimeout?
      ensures u.event.processId in rest && rest[u.event.processId].timeout == u.handle
    {
      var j := RemoveAtSource(ts, k, u);
      if u.event.processId == p {
        assert false;
      }
    }
  }

  /** Some member of a non-empty set of ids; `Map.forEach` visits every key
      once, and the order does not matter here. */
  method PickKey(keys: set<int>) returns (p: int)
    requires keys != {}
    ensures p in keys
  {
    if forall k :: k !in keys {
      assert false;
    }
    p :| p in keys;
  }

  /** What `initiateElection` leaves in the orchestrator and the timer
      queue: any earlier entry of the initiator cancelled, then either no
      entry (nobody to send to) or the ELECTIONs 200 ms apart, the 4 s
      timeout, and an entry naming that timeout. */
  ghost predicate Initiated(
    p: int, msgs: seq<Message>, now: int,
    pending0: map<int, PendingElection>, timers0: seq<Timer>, next0: nat,
    pending: map<int, PendingElection>, timers: seq<Timer>, next: nat)
  {
    var base := Cancelled(timers0, pending0, p);
    && (msgs == [] ==> pending == pending0 - {p} && timers == base && next == next0)
    && (msgs != [] ==>
          var timeout := next0 + |msgs|;
          && pending == pending0[p := PendingElection(timeout, true)]
          && timers == base + Staggered(msgs, now, 200, next0, false) + [Timer(timeout, now + 4000, ElectionTimeout(p))]
          && next == timeout + 1)
  }

  class ElectionOrchestrator {
    /** `pendingElections`: the elections whose initiator waits for an OK. */
    var pendingElections: map<int, PendingElection>

    ghost predicate Valid(loop: Loop)
      reads this, loop
    {
      loop.Valid() && Tracks(pendingElections, loop.timers)
    }

    /** `new ElectionOrchestrator()`: nothing pending.  `loop` must not
        hold timeouts of another orchestrator. */
    constructor (loop: Loop)
      requires loop.Valid()
      requires forall i :: 0 <= i < |loop.timers| ==> !loop.timers[i].event.ElectionTimeout?
      ensures Valid(loop) && pendingElections == map[]
    {
      pendingElections := map[];
    }

    /** `clearElection(processId)`: cancels and removes `processId`'s entry
        when there is one; other entries stay. */
    method ClearElection(processId: int, loop: Loop)
      requires Valid(loop)
      modifies this, loop
      ensures Valid(loop)
      ensures pendingElections == old(pendingElections) - {processId}
      ensures loop.timers == Cancelled(old(loop.timers), old(pendingElections), processId)
      ensures loop.now == old(loop.now) && loop.serial == old(loop.serial) && loop.nextHandle == old(loop.nextHandle)
    {
      TracksCancel(pendingElections, loop.timers, processId);
      if processId in pendingElections {
        loop.ClearTimeout(pendingElections[processId].timeout);
        pendingElections := pendingElections - {processId};
      }
    }

    /** `setTimeout` for anything but an election timeout. */
    method SetOtherTimeout(delay: nat, event: Event, loop: Loop)
      requires Valid(loop) && !event.ElectionTimeout?
      modifies loop
      ensures Valid(loop)
      ensures loop.timers == old(loop.timers) + [Timer(old(loop.nextHandle), loop.now + delay, event)]
      ensures loop.nextHandle == old(loop.nextHandle) + 1
      ensures loop.now == old(loop.now) && loop.serial == old(loop.serial)
    {
      TracksAppendOther(pendingElections, loop.timers, Timer(loop.nextHandle, loop.now + delay, event));
      var handle := loop.SetTimeout(delay, event);
    }

    /** `msgs.forEach((m, i) => setTimeout(..., i * step))`. */
    method Schedule(msgs: seq<Message>, step: nat, response: bool, loop: Loop)
      requires Valid(loop)
      modifies loop
      ensures Valid(loop)
      ensures loop.timers == old(loop.timers) + Staggered(msgs, loop.now, step, old(loop.nextHandle), response)
      ensures loop.nextHandle == old(loop.nextHandle) + |msgs|
      ensures loop.now == old(loop.now) && loop.serial == old(loop.serial)
    {
      ghost var base := loop.timers;
      var h0 := loop.nextHandle;
      var i := 0;
      while i < |msgs|
        invariant 0 <= i <= |msgs|
        invariant loop.Valid() && Tracks(pendingElections, loop.timers)
        invariant loop.now == old(loop.now) && loop.serial == old(loop.serial)
        invariant loop.nextHandle == h0 + i
        invariant loop.timers == base + Staggered(msgs[..i], loop.now, step, h0, response)
      {
        var event := if response then SendResponse(msgs[i]) else SendElection(msgs[i]);
        var t := Timer(h0 + i, loop.now + step * i, event);
        TracksAppendOther(pendingElections, loop.timers, t);
        assert Staggered(msgs[..i + 1], loop.now, step, h0, response)
            == Staggered(msgs[..i], loop.now, step, h0, response) + [t];
        var handle := loop.SetTimeout(step * i, event);
        i := i + 1;
      }
      assert msgs[..i] == msgs;
    }

    /** `initiateElection(processId, processes, ...)`.  Any earlier election
        of the initiator is cancelled first.  With no ELECTION to send the
        initiator completes at once and keeps no entry; otherwise the i-th
        ELECTION is sent 200 * i ms from now, the 4 s timeout is set, and
        the initiator's entry names that timeout and waits for an OK. */
    method InitiateElection(processId: int, processes: seq<Process>, loop: Loop) returns (effects: seq<Effect>)
      requires Valid(loop)
      modifies this, loop
      ensures Valid(loop)
      ensures loop.now == old(loop.now)
      ensures var msgs := StartElection(processId, processes, old(loop.now), old(loop.serial));
        && loop.serial == old(loop.serial) + |msgs|
        && effects == (if msgs == [] then [Complete(processId)] else [])
        && Initiated(processId, msgs, old(loop.now),
                     old(pendingElections), old(loop.timers), old(loop.nextHandle),
                     pendingElections, loop.timers, loop.nextHandle)
    {
      ClearElection(processId, loop);
      var msgs := StartElection(processId, processes, loop.now, loop.serial);
      var first := loop.Reserve(|msgs|);
      if msgs == [] {
        effects := [Complete(processId)];
        return;
      }
      Schedule(msgs, 200, false, loop);
      var t := Timer(loop.nextHandle, loop.now + 4000, ElectionTimeout(processId));
      TracksAppendTimeout(pendingElections, loop.timers, t);
      var timeout := loop.SetTimeout(4000, ElectionTimeout(processId));
      pendingElections := pendingElections[processId := PendingElection(timeout, true)];
      effects := [];
    }

    /** `handleElectionMessage(message, processes, ...)`: the receiver's
        responses are sent 150 * i ms apart and, when one of them is an OK,
        the receiver's own election starts 100 ms from now.  No entry
        changes. */
    method HandleElectionMessage(message: Message, processes: seq<Process>, loop: Loop)
      requires Valid(loop)
      modifies loop
      ensures Valid(loop)
      ensures loop.now == old(loop.now)
      ensures var responses := BullyAlgorithm.HandleElectionMessage(message.to, message.from, processes, old(loop.now), old(loop.serial));
        var sends := Staggered(responses, old(loop.now), 150, old(loop.nextHandle), true);
        var restart := Timer(old(loop.nextHandle) + |responses|, old(loop.now) + 100, RestartElection(message.to, processes));
        && loop.serial == old(loop.serial) + |responses|
        && loop.timers == old(loop.timers) + sends + (if IsActiveId(processes, message.to) then [restart] else [])
        && loop.nextHandle == old(loop.nextHandle) + |responses| + (if IsActiveId(processes, message.to) then 1 else 0)
    {
      var responses := BullyAlgorithm.HandleElectionMessage(message.to, message.from, processes, loop.now, loop.serial);
      var first := loop.Reserve(|responses|);
      Schedule(responses, 150, true, loop);
      ghost var sends := Staggered(responses, loop.now, 150, old(loop.nextHandle), true);
      assert loop.timers == old(loop.timers) + sends;
      var ok := FindOk(responses);
      RestartIffReceiverActive(message.to, message.from, processes, old(loop.now), old(loop.serial));
      if ok.Some? {
        SetOtherTimeout(100, RestartElection(message.to, processes), loop);
      }
    }

    /** `handleOkMessage(message, ...)`: when the receiver has an entry, its
        timeout is cancelled, the entry removed and the OK logged; otherwise
        nothing happens. */
    method HandleOkMessage(message: Message, loop: Loop) returns (effects: seq<Effect>)
      requires Valid(loop)
      modifies this, loop
      ensures Valid(loop)
      ensures pendingElections == old(pendingElections) - {message.to}
      ensures loop.timers == Cancelled(old(loop.timers), old(pendingElections), message.to)
      ensures message.to in old(pendingElections) ==>
        effects == [Log("Process P" + IntToString(message.to) + " received OK from Process P" + IntToString(message.from), Election)]
      ensures message.to !in old(pendingElections) ==> effects == [] && loop.timers == old(loop.timers)
      ensures loop.now == old(loop.now) && loop.serial == old(loop.serial) && loop.nextHandle == old(loop.nextHandle)
    {
      effects := [];
      if message.to in pendingElections {
        ClearElection(message.to, loop);
        effects := [Log("Process P" + IntToString(message.to) + " received OK from Process P" + IntToString(message.from), Election)];
      }
    }

    /** `handleCoordinatorMessage(message, ...)`: the receiver acknowledges
        the sender, whatever is pending, and the sender's election
        completes. */
    method HandleCoordinatorMessage(message: Message) returns (effects: seq<Effect>)
      ensures |effects| == 2 && effects[0].Log? && effects[0].logType == Leader
      ensures effects[1] == Complete(message.from)
      ensures effects[0].text == "Process P" + IntToString(message.to) + " acknowledged P" + IntToString(message.from) + " as leader"
    {
      effects := [Log("Process P" + IntToString(message.to) + " acknowledged P" + IntToString(message.from) + " as leader", Leader),
                  Complete(message.from)];
    }

    /** `handleElectionTimeout(processId, ...)`: no OK came in time, so the
        entry is dropped and the initiator declares itself leader. */
    method HandleElectionTimeout(processId: int) returns (effects: seq<Effect>)
      modifies this
      ensures pendingElections == old(pendingElections) - {processId}
      ensures effects == [Log("Process P" + IntToString(processId) + " declares itself as leader", Leader), Complete(processId)]
    {
      pendingElections := pendingElections - {processId};
      effects := [Log("Process P" + IntToString(processId) + " declares itself as leader", Leader), Complete(processId)];
    }

    /** `clearAllElections()`: every pending timeout is cancelled and the
        map is emptied; every other timer stays. */
    method ClearAllElections(loop: Loop)
      requires Valid(loop)
      modifies this, loop
      ensures Valid(loop) && pendingElections == map[]
      ensures forall t :: t in loop.timers <==> t in old(loop.timers) && !t.event.ElectionTimeout?
      ensures loop.now == old(loop.now) && loop.serial == old(loop.serial) && loop.nextHandle == old(loop.nextHandle)
    {
      ghost var ts0 := loop.timers;
      var keys := pendingElections.Keys;
      while keys != {}
        invariant keys <= pendingElections.Keys
        invariant loop.Valid()
        invariant loop.now == old(loop.now) && loop.serial == old(loop.serial) && loop.nextHandle == old(loop.nextHandle)
        invariant forall t :: t in loop.timers <==>
          t in ts0 && !(t.event.ElectionTimeout? && t.event.processId !in keys)
        decreases keys
        modifies loop
      {
        var p := PickKey(keys);
        var h := pendingElections[p].timeout;
        ghost var before := loop.timers;
        loop.ClearTimeout(h);
        forall t | t in ts0 && !(t.event.ElectionTimeout? && t.event.processId !in keys - {p})
          ensures t in loop.timers
        {
          if t.handle == h {
            var tp :| tp in ts0 && tp.handle == h && tp.event == ElectionTimeout(p);
            SameHandleSameTimer(ts0, t, tp);
          }
        }
        keys := keys - {p};
      }
      pendingElections := map[];
    }

    /** Runs the callback of the timer that fires next, when it is one this
        class set: an ELECTION or a response is emitted and logged, a
        receiver's election starts, or a timeout makes its initiator
        leader. */
    method Fire(k: int, loop: Loop) returns (effects: seq<Effect>)
      requires Valid(loop) && IsNext(loop.timers, k)
      requires !loop.timers[k].event.DeliverHeartbeat?
      modifies this, loop
      ensures Valid(loop)
      ensures loop.now == old(loop.timers[k].due)
      ensures var fired := old(loop.timers[k]);
        match fired.event
        case SendElection(m) =>
          && effects == [Emit(m), Log(SentLine("ELECTION", m), Election)]
          && pendingElections == old(pendingElections) && loop.timers == RemoveAt(old(loop.timers), k)
        case SendResponse(m) =>
          && effects == ResponseEffects(m)
          && pendingElections == old(pendingElections) && loop.timers == RemoveAt(old(loop.timers), k)
        case ElectionTimeout(p) =>
          && effects == [Log("Process P" + IntToString(p) + " declares itself as leader", Leader), Complete(p)]
          && pendingElections == old(pendingElections) - {p} && loop.timers == RemoveAt(old(loop.timers), k)
        case RestartElection(p, ps) =>
          var msgs := StartElection(p, ps, fired.due, old(loop.serial));
          && effects == (if msgs == [] then [Complete(p)] else [])
          && loop.serial == old(loop.serial) + |msgs|
          && Initiated(p, msgs, fired.due, old(pendingElections), RemoveAt(old(loop.timers), k), old(loop.nextHandle),
                       pendingElections, loop.timers, loop.nextHandle)
        case DeliverHeartbeat(_) => false
    {
      if loop.timers[k].event.ElectionTimeout? {
        TracksTakeTimeout(pendingElections, loop.timers, k);
      } else {
        TracksTakeOther(pendingElections, loop.timers, k);
      }
      var event := loop.Take(k);
      match event
      case SendElection(m) =>
        effects := [Emit(m), Log(SentLine("ELECTION", m), Election)];
      case SendResponse(m) =>
        effects := ResponseEffects(m);
      case ElectionTimeout(p) =>
        effects := HandleElectionTimeout(p);
      case RestartElection(p, ps) =>
        effects := InitiateElection(p, ps, loop);
    }
  }
}
