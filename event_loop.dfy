/** The part of the JavaScript runtime the election engine relies on: the
    clock behind `Date.now()`, the random suffix that makes ids unique (here
    a serial counter), and the queue of timers behind `setTimeout` and
    `clearTimeout`.  Timers fire one at a time, earliest due time first and,
    among equal due times, in the order they were set. */
module EventLoop {
  import opened Types

  /** What a timer does when it fires: the closures the source hands to
      `setTimeout`. */
  datatype Event =
    | SendElection(message: Message)                            // initiateElection: one staggered ELECTION
    | SendResponse(message: Message)                            // handleElectionMessage: one staggered reply
    | RestartElection(processId: int, processes: seq<Process>)  // handleElectionMessage: the receiver's own election
    | ElectionTimeout(processId: int)                           // initiateElection: the 4 s wait for OK
    | DeliverHeartbeat(message: Message)                        // heartbeat tick: one staggered ADD_MESSAGE

  /** A scheduled callback: its handle, the clock value it is due at, and
      what it does. */
  datatype Timer = Timer(handle: nat, due: int, event: Event)

  /** Handles grow along the queue, so no two timers share one. */
  predicate HandlesIncreasing(ts: seq<Timer>)
  {
    forall i, j :: 0 <= i < j < |ts| ==> ts[i].handle < ts[j].handle
  }

  /** The queue after `clearTimeout(handle)`. */
  function Without(ts: seq<Timer>, handle: nat): (r: seq<Timer>)
    ensures forall t :: t in r <==> t in ts && t.handle != handle
  {
    if ts == [] then []
    else
      assert ts == [ts[0]] + ts[1..];
      (if ts[0].handle == handle then [] else [ts[0]]) + Without(ts[1..], handle)
  }

  /** Cancelling keeps the remaining timers in order. */
  lemma {:induction false} WithoutKeepsOrder(ts: seq<Timer>, handle: nat)
    requires HandlesIncreasing(ts)
    ensures HandlesIncreasing(Without(ts, handle))
  {
    if ts != [] {
      WithoutKeepsOrder(ts[1..], handle);
      var rest := Without(ts[1..], handle);
      forall k | 0 <= k < |rest|
        ensures ts[0].handle < rest[k].handle
      {
        assert rest[k] in ts[1..];
        var j :| 0 <= j < |ts[1..]| && ts[1..][j] == rest[k];
        assert ts[j + 1] == rest[k];
      }
    }
  }

  /** `k` is the timer that fires next: none is due earlier, and none set
      before it is due at the same time. */
  predicate IsNext(ts: seq<Timer>, k: int)
  {
    && 0 <= k < |ts|
    && (forall j :: 0 <= j < |ts| ==> ts[k].due <= ts[j].due)
    && (forall j :: 0 <= j < k ==> ts[k].due < ts[j].due)
  }

  /** The queue without its `k`-th timer. */
  function RemoveAt(ts: seq<Timer>, k: int): (r: seq<Timer>)
    requires 0 <= k < |ts|
    ensures |r| == |ts| - 1
    ensures forall i :: 0 <= i < k ==> r[i] == ts[i]
    ensures forall i :: k < i < |ts| ==> r[i - 1] == ts[i]
  {
    ts[..k] + ts[k + 1..]
  }

  class Loop {
    /** `Date.now()`. */
    var now: int
    /** Ids issued so far; stands for `Math.random`'s unique suffixes. */
    var serial: nat
    /** Timers set and neither fired nor cancelled, in the order they were set. */
    var timers: seq<Timer>
    var nextHandle: nat

    ghost predicate Valid()
      reads this
    {
      && HandlesIncreasing(timers)
      && (forall i :: 0 <= i < |timers| ==> timers[i].handle < nextHandle && now <= timers[i].due)
    }

    constructor (start: int)
      ensures Valid()
      ensures now == start && serial == 0 && timers == [] && nextHandle == 0
    {
      now, serial, timers, nextHandle := start, 0, [], 0;
    }

    /** `setTimeout(callback, delay)`. */
    method SetTimeout(delay: nat, event: Event) returns (handle: nat)
      requires Valid()
      modifies this
      ensures Valid()
      ensures handle == old(nextHandle) && nextHandle == old(nextHandle) + 1
      ensures timers == old(timers) + [Timer(handle, now + delay, event)]
      ensures now == old(now) && serial == old(serial)
    {
      handle := nextHandle;
      timers := timers + [Timer(handle, now + delay, event)];
      nextHandle := nextHandle + 1;
    }

    /** `clearTimeout(handle)`; an unknown handle is ignored. */
    method ClearTimeout(handle: nat)
      requires Valid()
      modifies this
      ensures Valid()
      ensures timers == Without(old(timers), handle)
      ensures now == old(now) && serial == old(serial) && nextHandle == old(nextHandle)
    {
      WithoutKeepsOrder(timers, handle);
      timers := Without(timers, handle);
    }

    /** Takes `count` fresh id suffixes; returns the first. */
    method Reserve(count: nat) returns (first: nat)
      modifies this
      ensures first == old(serial) && serial == old(serial) + count
      ensures now == old(now) && timers == old(timers) && nextHandle == old(nextHandle)
    {
      first := serial;
      serial := serial + count;
    }

    /** Which timer fires next, or -1 when none is set. */
    method NextTimer() returns (k: int)
      ensures k == -1 <==> timers == []
      ensures k != -1 ==> IsNext(timers, k)
    {
      if timers == [] {
        return -1;
      }
      k := 0;
      var j := 1;
      while j < |timers|
        invariant 0 <= k < j <= |timers|
        invariant forall i :: 0 <= i < j ==> timers[k].due <= timers[i].due
        invariant forall i :: 0 <= i < k ==> timers[k].due < timers[i].due
      {
        if timers[j].due < timers[k].due {
          k := j;
        }
        j := j + 1;
      }
    }

    /** The clock reaches the next timer's due time and that timer leaves the
        queue; its callback is the caller's to run. */
    method Take(k: int) returns (event: Event)
      requires Valid() && IsNext(timers, k)
      modifies this
      ensures Valid()
      ensures event == old(timers[k].event) && now == old(timers[k].due)
      ensures timers == RemoveAt(old(timers), k)
      ensures serial == old(serial) && nextHandle == old(nextHandle)
    {
      event := timers[k].event;
      now := timers[k].due;
      timers := RemoveAt(timers, k);
    }

    /** Time passes while no timer is due. */
    method Elapse(duration: nat)
      requires Valid()
      requires forall i :: 0 <= i < |timers| ==> now + duration <= timers[i].due
      modifies this
      ensures Valid()
      ensures now == old(now) + duration
      ensures serial == old(serial) && timers == old(timers) && nextHandle == old(nextHandle)
    {
      now := now + duration;
    }
  }
}
