/** The worker object: each method is the code between two awaits, proved to be one step of the state machine. */
module DurableWorker {
  import opened WorkerModel

  datatype LeaseReply = Granted | Conflict | LeaseFailed

  /** How a handler ends: with an output that can be sent, with one that cannot be turned into JSON, or by throwing. */
  datatype HandlerEnd = WithOutput | NotJson | Threw

  function Ended(end: HandlerEnd): Outcome {
    match end
    case WithOutput => HandlerReturned
    case NotJson => OutputThrew
    case Threw => HandlerThrew
  }

  function Answered(reply: LeaseReply): Outcome {
    match reply
    case Granted => LeaseGranted
    case Conflict => LeaseLost
    case LeaseFailed => LeaseThrew
  }

  class Worker {
    const concurrency: nat
    const leaseTtl: real
    const heartbeat: real

    var stopping: bool
    var waiters: seq<nat>
    var stats: Stats
    /** The await each spawned slot loop is parked at. */
    var slots: seq<Phase>
    ghost var leaked: nat

    ghost function Now(): State
      reads this
    {
      State(slots, waiters, stopping, stats, leaked)
    }

    /** Nobody who sleeps is forgotten, every lease is accounted for, and the slots are those of the worker. */
    ghost predicate Valid()
      reads this
    {
      Wakeable(Now()) && Balanced(Now()) && if slots == [] then waiters == [] else |slots| == concurrency
    }

    constructor (concurrency: nat, leaseTtl: real, heartbeat: real)
      requires concurrency >= 1 && heartbeat < leaseTtl
      ensures this.concurrency == concurrency && this.leaseTtl == leaseTtl && this.heartbeat == heartbeat
      ensures Valid() && slots == [] && !stopping && stats == Stats(0, 0, 0, 0) && leaked == 0
    {
      this.concurrency, this.leaseTtl, this.heartbeat := concurrency, leaseTtl, heartbeat;
      stopping, waiters, stats, slots, leaked := false, [], Stats(0, 0, 0, 0), [], 0;
    }

    /** The checks of the original constructor, which throws instead of returning null. */
    static method Create(concurrency: int, leaseTtl: real, heartbeat: real) returns (w: Worker?)
      ensures w == null <==> concurrency < 1 || heartbeat >= leaseTtl
      ensures w != null ==> fresh(w) && w.Valid() && w.slots == [] && !w.stopping && w.concurrency == concurrency
      ensures w != null ==> w.heartbeat == heartbeat < leaseTtl == w.leaseTtl
    {
      if concurrency < 1 || heartbeat >= leaseTtl { return null; }
      w := new Worker(concurrency, leaseTtl, heartbeat);
    }

    /** The counters: what was leased is completed, failed, still in a slot, or leaked by a throw outside the
        handler. */
    method GetStats() returns (r: Stats)
      requires Valid()
      ensures r == stats && r.leased == r.completed + r.failed + InFlight(slots) + leaked
      ensures leaked == 0 ==> r.completed + r.failed <= r.leased <= r.completed + r.failed + concurrency
    {
      r := stats;
    }

    lemma Keeps(before: State, e: Event)
      requires Wakeable(before) && Balanced(before)
      ensures Wakeable(Apply(before, e)) && Balanced(Apply(before, e)) && |Apply(before, e).slots| == |before.slots|
    {
      ApplyWakeable(before, e);
      ApplyBalanced(before, e);
    }

    /** Spawns the slot loops; each runs to its first await. */
    method Spawn()
      requires Valid() && slots == [] && stats == Stats(0, 0, 0, 0) && leaked == 0
      modifies this`slots
      ensures Valid() && Now() == Spawned(concurrency, stopping)
    {
      for i := 0 to concurrency
        invariant |slots| == i && forall j :: 0 <= j < i ==> slots[j] == LoopHead(stopping)
      {
        slots := slots + [if stopping then Exited else Discovering];
      }
      assert slots == Spawned(concurrency, stopping).slots;
      NothingInFlight(slots);
    }

    /** Wakes exactly the sleeping slots, and empties the queue. */
    method Stop()
      requires Valid()
      modifies this`stopping, this`waiters, this`slots
      ensures Valid() && Now() == Apply(old(Now()), WorkerModel.Stop)
      ensures stopping && waiters == [] && |slots| == |old(slots)|
      ensures forall i :: 0 <= i < |slots| ==> slots[i] == if old(slots[i]) == Sleeping then Woken else old(slots[i])
    {
      stopping := true;
      while |waiters| > 0
        modifies this`waiters, this`slots
        invariant |slots| == |old(slots)| && forall i :: i in waiters ==> i < |slots|
        invariant WakeAll(slots, waiters) == WakeAll(old(slots), old(waiters))
        decreases |waiters|
      {
        var waiter := waiters[0];
        assert waiter in waiters && forall i :: i in waiters[1..] ==> i in waiters;
        waiters := waiters[1..];
        slots := slots[waiter := Woken];
      }
      WakeAllWakes(old(slots), old(waiters));
      Keeps(old(Now()), WorkerModel.Stop);
    }

    /** The search for a candidate step has ended. */
    method AfterDiscovery(slot: nat, found: bool)
      requires Valid() && slot < |slots| && slots[slot] == Discovering
      modifies this`slots
      ensures Valid() && Now() == Apply(old(Now()), At(slot, if found then Candidate else NoCandidate))
      ensures slots == old(slots)[slot := if found then Leasing else Returned(false)]
    {
      Keeps(Now(), At(slot, if found then Candidate else NoCandidate));
      slots := slots[slot := if found then Leasing else Returned(false)];
    }

    /** The lease request has been answered. */
    method AfterLease(slot: nat, reply: LeaseReply)
      requires Valid() && slot < |slots| && slots[slot] == Leasing
      modifies this`slots, this`stats
      ensures Valid() && Now() == Apply(old(Now()), At(slot, Answered(reply)))
      ensures stats.leased == old(stats.leased) + (if reply.Granted? then 1 else 0)
      ensures stats.lost == old(stats.lost) + (if reply.Conflict? then 1 else 0)
      ensures slots == old(slots)[slot := if reply.Granted? then Refreshing else Returned(false)]
    {
      Keeps(Now(), At(slot, Answered(reply)));
      if reply == LeaseFailed {
        slots := slots[slot := Returned(false)];
        return;
      }
      if reply == Conflict {
        stats := stats.(lost := stats.lost + 1);
        slots := slots[slot := Returned(false)];
        return;
      }
      stats := stats.(leased := stats.leased + 1);
      slots := slots[slot := Refreshing];
    }

    /** The refresh has settled, either way: builds the context, starts the heartbeat and the handler. */
    method AfterRefresh(slot: nat, built: bool)
      requires Valid() && slot < |slots| && slots[slot] == Refreshing
      modifies this`slots, this`leaked
      ensures Valid() && Now() == Apply(old(Now()), At(slot, if built then ContextBuilt else ContextThrew))
      ensures leaked == old(leaked) + if built then 0 else 1
      ensures slots == old(slots)[slot := if built then Handling else Returned(false)]
    {
      Keeps(Now(), At(slot, if built then ContextBuilt else ContextThrew));
      if !built {
        leaked := leaked + 1;
        slots := slots[slot := Returned(false)];
        return;
      }
      slots := slots[slot := Handling];
    }

    /** The handler has returned or thrown. */
    method AfterHandler(slot: nat, end: HandlerEnd)
      requires Valid() && slot < |slots| && slots[slot] == Handling
      modifies this`slots, this`stats, this`leaked
      ensures Valid() && Now() == Apply(old(Now()), At(slot, Ended(end)))
      ensures stats == old(stats).(failed := old(stats.failed) + if end.Threw? then 1 else 0)
      ensures leaked == old(leaked) + if end.NotJson? then 1 else 0
      ensures slots == old(slots)[slot := if end.WithOutput? then ReleasingOk
                                          else if end.Threw? then ReleasingFailed else Returned(false)]
    {
      Keeps(Now(), At(slot, Ended(end)));
      if end == Threw {
        stats := stats.(failed := stats.failed + 1);
        slots := slots[slot := ReleasingFailed];
        return;
      }
      if end == NotJson {
        leaked := leaked + 1;
        slots := slots[slot := Returned(false)];
        return;
      }
      slots := slots[slot := ReleasingOk];
    }

    /** The release has settled, or thrown something other than a Plinth error. */
    method AfterRelease(slot: nat, settled: bool)
      requires Valid() && slot < |slots| && (slots[slot] == ReleasingOk || slots[slot] == ReleasingFailed)
      modifies this`slots, this`stats, this`leaked
      ensures Valid() && Now() == Apply(old(Now()), At(slot, if settled then ReleaseSettled else ReleaseThrew))
      ensures stats.completed + leaked
              == old(stats.completed + leaked) + if old(slots[slot]) == ReleasingOk then 1 else 0
      ensures stats.completed == old(stats.completed) + if settled && old(slots[slot]) == ReleasingOk then 1 else 0
      ensures slots == old(slots)[slot := Returned(settled)]
    {
      Keeps(Now(), At(slot, if settled then ReleaseSettled else ReleaseThrew));
      if !settled {
        leaked := leaked + if slots[slot] == ReleasingOk then 1 else 0;
        slots := slots[slot := Returned(false)];
        return;
      }
      if slots[slot] == ReleasingOk { stats := stats.(completed := stats.completed + 1); }
      slots := slots[slot := Returned(true)];
    }

    /** The slot loop takes up after a poll: it goes to sleep, or round again, or leaves. */
    method AfterPoll(slot: nat)
      requires Valid() && slot < |slots| && slots[slot].Returned?
      modifies this`slots, this`waiters
      ensures Valid() && Now() == Apply(old(Now()), At(slot, Resumed))
      ensures slots[slot] == Sleeping <==> !old(slots[slot].claimed) && !stopping
    {
      Keeps(Now(), At(slot, Resumed));
      if !slots[slot].claimed && !stopping {
        IdleSleep(slot);
      } else {
        slots := slots[slot := if stopping then Exited else Discovering];
      }
    }

    /** Queues the wake-up and waits. */
    method IdleSleep(slot: nat)
      requires Valid() && slot < |slots| && slots[slot] == Returned(false) && !stopping
      modifies this`slots, this`waiters
      ensures Valid() && slots == old(slots)[slot := Sleeping] && waiters == old(waiters) + [slot]
    {
      Keeps(Now(), At(slot, Resumed));
      waiters := waiters + [slot];
      slots := slots[slot := Sleeping];
    }

    /** The idle timer fires: the wake-up leaves the queue. */
    method OnTimer(slot: nat)
      requires Valid() && slot < |slots| && slots[slot] == Sleeping
      modifies this`slots, this`waiters
      ensures Valid() && Now() == Apply(old(Now()), At(slot, TimerFired))
      ensures slot !in waiters && forall i :: i != slot ==> (i in waiters <==> i in old(waiters))
    {
      Keeps(Now(), At(slot, TimerFired));
      DropOne(waiters, slot);
      RemoveWaiter(slot);
      slots := slots[slot := Woken];
    }

    method RemoveWaiter(slot: nat)
      modifies this`waiters
      ensures waiters == Drop(old(waiters), slot)
    {
      var i := 0;
      while i < |waiters| && waiters[i] != slot
        invariant i <= |waiters|
        invariant Drop(waiters, slot) == waiters[..i] + Drop(waiters[i..], slot)
      {
        assert waiters[i..][1..] == waiters[i + 1..] && waiters[..i + 1] == waiters[..i] + [waiters[i]];
        i := i + 1;
      }
      if i < |waiters| {
        assert waiters[i..][1..] == waiters[i + 1..];
        waiters := waiters[..i] + waiters[i + 1..];
      }
    }

    /** The slot loop takes up after a sleep. */
    method AfterSleep(slot: nat)
      requires Valid() && slot < |slots| && slots[slot] == Woken
      modifies this`slots
      ensures Valid() && Now() == Apply(old(Now()), At(slot, Resumed))
      ensures slots[slot] == Exited <==> stopping
    {
      Keeps(Now(), At(slot, Resumed));
      slots := slots[slot := if stopping then Exited else Discovering];
    }
  }
}
