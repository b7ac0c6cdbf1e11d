/** The durable worker as a state machine: `concurrency` slot loops interleaved at their awaits.

    Everything a slot does between two awaits is atomic, so the state of a slot is the await it is parked at. */
module WorkerModel {
  import opened Runs

  /** What a slot is waiting for. */
  datatype Phase =
    | Discovering              // the search for a pending step
    | Leasing                  // the lease request
    | Refreshing               // the refresh after a granted lease; no heartbeat yet
    | Handling                 // the handler, with the lease heartbeat on
    | ReleasingOk              // the release of a completed step
    | ReleasingFailed          // the release of a failed step, already counted as failed
    | Returned(claimed: bool)  // the slot loop, to take up the result of the poll
    | Sleeping                 // the idle timer or a wake-up from `stop`
    | Woken                    // the slot loop, to take up after a sleep
    | Exited

  /** What an await resolves with.  A handler may return something that cannot be turned into JSON, which throws before
      any release.  A release that fails with a Plinth error settles; any other error is thrown. */
  datatype Outcome =
    | Candidate | NoCandidate
    | LeaseGranted | LeaseLost | LeaseThrew
    | ContextBuilt | ContextThrew
    | HandlerReturned | HandlerThrew | OutputThrew
    | ReleaseSettled | ReleaseThrew
    | TimerFired
    | Resumed

  datatype Event = Stop | At(slot: nat, outcome: Outcome)

  datatype Stats = Stats(leased: nat, completed: nat, failed: nat, lost: nat)

  /** `leaked` counts leases that end in neither `completed` nor `failed`. */
  datatype State = State(slots: seq<Phase>, waiters: seq<nat>, stopping: bool, stats: Stats, leaked: nat)

  predicate Enabled(phase: Phase, outcome: Outcome) {
    match phase
    case Discovering => outcome == Candidate || outcome == NoCandidate
    case Leasing => outcome == LeaseGranted || outcome == LeaseLost || outcome == LeaseThrew
    case Refreshing => outcome == ContextBuilt || outcome == ContextThrew
    case Handling => outcome == HandlerReturned || outcome == HandlerThrew || outcome == OutputThrew
    case ReleasingOk | ReleasingFailed => outcome == ReleaseSettled || outcome == ReleaseThrew
    case Returned(_) => outcome == Resumed
    case Sleeping => outcome == TimerFired
    case Woken => outcome == Resumed
    case Exited => false
  }

  /** The head of the slot loop. */
  function LoopHead(stopping: bool): Phase {
    if stopping then Exited else Discovering
  }

  function After(phase: Phase, outcome: Outcome, stopping: bool): Phase {
    match outcome
    case Candidate => Leasing
    case NoCandidate => Returned(false)
    case LeaseGranted => Refreshing
    case LeaseLost | LeaseThrew => Returned(false)
    case ContextBuilt => Handling
    case ContextThrew => Returned(false)
    case HandlerReturned => ReleasingOk
    case HandlerThrew => ReleasingFailed
    case OutputThrew => Returned(false)
    case ReleaseSettled => Returned(true)
    case ReleaseThrew => Returned(false)
    case TimerFired => Woken
    case Resumed => if phase == Returned(false) && !stopping then Sleeping else LoopHead(stopping)
  }

  function Count(stats: Stats, phase: Phase, outcome: Outcome): Stats {
    match outcome
    case LeaseGranted => stats.(leased := stats.leased + 1)
    case LeaseLost => stats.(lost := stats.lost + 1)
    case HandlerThrew => stats.(failed := stats.failed + 1)
    case ReleaseSettled => if phase == ReleasingOk then stats.(completed := stats.completed + 1) else stats
    case _ => stats
  }

  function Leaks(phase: Phase, outcome: Outcome): nat {
    if outcome == ContextThrew || outcome == OutputThrew || (outcome == ReleaseThrew && phase == ReleasingOk) then 1
    else 0
  }

  /** `splice(indexOf(...), 1)`: drops the first occurrence. */
  function Drop(waiters: seq<nat>, slot: nat): seq<nat> {
    if waiters == [] then []
    else if waiters[0] == slot then waiters[1..]
    else [waiters[0]] + Drop(waiters[1..], slot)
  }

  /** Calls the wake-up of every waiter in order. */
  function WakeAll(slots: seq<Phase>, waiters: seq<nat>): (r: seq<Phase>)
    ensures |r| == |slots|
    decreases |waiters|
  {
    if waiters == [] then slots
    else WakeAll(if waiters[0] < |slots| then slots[waiters[0] := Woken] else slots, waiters[1..])
  }

  predicate Effective(s: State, e: Event) {
    match e
    case Stop => true
    case At(slot, outcome) => slot < |s.slots| && Enabled(s.slots[slot], outcome)
  }

  function Queue(s: State, slot: nat, outcome: Outcome, next: Phase): seq<nat> {
    if next == Sleeping then s.waiters + [slot]
    else if outcome == TimerFired then Drop(s.waiters, slot)
    else s.waiters
  }

  /** One atomic segment; an outcome nobody is waiting for changes nothing. */
  function Apply(s: State, e: Event): State {
    if !Effective(s, e) then s
    else
      match e
      case Stop => s.(stopping := true, waiters := [], slots := WakeAll(s.slots, s.waiters))
      case At(slot, outcome) =>
        var phase := s.slots[slot];
        var next := After(phase, outcome, s.stopping);
        State(s.slots[slot := next], Queue(s, slot, outcome, next), s.stopping,
              Count(s.stats, phase, outcome), s.leaked + Leaks(phase, outcome))
  }

  /** `run` has just spawned its slot loops; `stop` may already have been called. */
  function Spawned(concurrency: nat, stopping: bool): State {
    State(seq(concurrency, _ => LoopHead(stopping)), [], stopping, Stats(0, 0, 0, 0), 0)
  }

  function Run(s: State, events: seq<Event>): State {
    Fold(Apply, s, events)
  }

  // ----- no lost wake-up -----

  ghost predicate NoDuplicates(waiters: seq<nat>) {
    forall i, j :: 0 <= i < j < |waiters| ==> waiters[i] != waiters[j]
  }

  /** The wait queue holds exactly the sleeping slots, once each, and nobody sleeps once `stopping` is set. */
  ghost predicate Wakeable(s: State) {
    && NoDuplicates(s.waiters)
    && (forall i :: i in s.waiters ==> i < |s.slots| && s.slots[i] == Sleeping)
    && (forall i :: 0 <= i < |s.slots| && s.slots[i] == Sleeping ==> i in s.waiters)
    && (s.stopping ==> s.waiters == [])
  }

  lemma {:induction false} DropOne(waiters: seq<nat>, slot: nat)
    requires NoDuplicates(waiters)
    ensures NoDuplicates(Drop(waiters, slot))
    ensures forall i :: i in Drop(waiters, slot) <==> i in waiters && i != slot
  {
    if waiters != [] {
      var rest := waiters[1..];
      DropOne(rest, slot);
      assert forall i :: i in waiters <==> i == waiters[0] || i in rest;
      assert waiters[0] !in rest;
    }
  }

  lemma {:induction false} WakeAllWakes(slots: seq<Phase>, waiters: seq<nat>)
    requires forall i :: i in waiters ==> i < |slots|
    ensures forall i :: 0 <= i < |slots| ==> WakeAll(slots, waiters)[i] == if i in waiters then Woken else slots[i]
    decreases |waiters|
  {
    if waiters != [] {
      assert forall i :: i in waiters <==> i == waiters[0] || i in waiters[1..];
      assert waiters[0] in waiters;
      WakeAllWakes(slots[waiters[0] := Woken], waiters[1..]);
    }
  }

  lemma StopWakeable(s: State)
    requires Wakeable(s)
    ensures Wakeable(Apply(s, Stop))
  {
    WakeAllWakes(s.slots, s.waiters);
  }

  lemma SegmentWakeable(s: State, slot: nat, outcome: Outcome)
    requires Wakeable(s) && Effective(s, At(slot, outcome))
    ensures Wakeable(Apply(s, At(slot, outcome)))
  {
    var next := After(s.slots[slot], outcome, s.stopping);
    if next == Sleeping {
      Queued(s.waiters, slot);
    } else if outcome == TimerFired {
      DropOne(s.waiters, slot);
    }
  }

  lemma Queued(waiters: seq<nat>, slot: nat)
    requires NoDuplicates(waiters) && slot !in waiters
    ensures NoDuplicates(waiters + [slot])
    ensures forall i :: i in waiters + [slot] <==> i in waiters || i == slot
  {
  }

  lemma ApplyWakeable(s: State, e: Event)
    requires Wakeable(s)
    ensures Wakeable(Apply(s, e))
  {
    if Effective(s, e) {
      if e == Stop { StopWakeable(s); } else { SegmentWakeable(s, e.slot, e.outcome); }
    }
  }

  /** In every interleaving of the slots and `stop`. */
  lemma NoLostWakeUp(concurrency: nat, early: bool, events: seq<Event>)
    ensures Wakeable(Run(Spawned(concurrency, early), events))
  {
    forall s: State, e: Event | Wakeable(s) ensures Wakeable(Apply(s, e)) { ApplyWakeable(s, e); }
    FoldKeeps(Apply, s => Wakeable(s), Spawned(concurrency, early), events);
  }

  // ----- accounting -----

  function Holds(phase: Phase): nat {
    if phase == Refreshing || phase == Handling || phase == ReleasingOk then 1 else 0
  }

  /** Leases held whose outcome is not yet counted. */
  function InFlight(slots: seq<Phase>): (n: nat)
    ensures n <= |slots|
  {
    if slots == [] then 0 else InFlight(slots[..|slots| - 1]) + Holds(slots[|slots| - 1])
  }

  lemma {:induction false} InFlightUpdate(slots: seq<Phase>, i: nat, phase: Phase)
    requires i < |slots|
    ensures InFlight(slots[i := phase]) == InFlight(slots) - Holds(slots[i]) + Holds(phase)
    decreases |slots|
  {
    var n := |slots| - 1;
    if i == n {
      assert slots[i := phase][..n] == slots[..n];
    } else {
      assert slots[i := phase][..n] == slots[..n][i := phase];
      InFlightUpdate(slots[..n], i, phase);
    }
  }

  lemma {:induction false} InFlightWake(slots: seq<Phase>, waiters: seq<nat>)
    requires forall i :: i in waiters ==> i < |slots| && slots[i] == Sleeping
    requires NoDuplicates(waiters)
    ensures InFlight(WakeAll(slots, waiters)) == InFlight(slots)
    decreases |waiters|
  {
    if waiters != [] {
      assert waiters[0] in waiters && forall i :: i in waiters[1..] ==> i in waiters && i != waiters[0];
      InFlightUpdate(slots, waiters[0], Woken);
      InFlightWake(slots[waiters[0] := Woken], waiters[1..]);
    }
  }

  ghost predicate Balanced(s: State) {
    s.stats.leased == s.stats.completed + s.stats.failed + InFlight(s.slots) + s.leaked
  }

  lemma SegmentBalanced(s: State, slot: nat, outcome: Outcome)
    requires Balanced(s) && Effective(s, At(slot, outcome))
    ensures Balanced(Apply(s, At(slot, outcome)))
  {
    InFlightUpdate(s.slots, slot, After(s.slots[slot], outcome, s.stopping));
    Booked(s.stats, s.slots[slot], outcome, s.stopping);
  }

  /** One segment keeps the books of its own slot. */
  lemma Booked(stats: Stats, phase: Phase, outcome: Outcome, stopping: bool)
    requires Enabled(phase, outcome)
    ensures var c := Count(stats, phase, outcome);
            c.leased - c.completed - c.failed - Holds(After(phase, outcome, stopping)) - Leaks(phase, outcome)
            == stats.leased - stats.completed - stats.failed - Holds(phase)
  {
  }

  lemma ApplyBalanced(s: State, e: Event)
    requires Wakeable(s) && Balanced(s)
    ensures Balanced(Apply(s, e))
  {
    if Effective(s, e) {
      match e {
        case Stop => InFlightWake(s.slots, s.waiters);
        case At(slot, outcome) => SegmentBalanced(s, slot, outcome);
      }
    }
  }

  lemma {:induction false} NothingInFlight(slots: seq<Phase>)
    requires forall i :: 0 <= i < |slots| ==> Holds(slots[i]) == 0
    ensures InFlight(slots) == 0
  {
    if slots != [] { NothingInFlight(slots[..|slots| - 1]); }
  }

  /** Every lease ever taken is completed, failed, in flight, or was leaked by a throw outside the handler. */
  lemma LeasesBalance(concurrency: nat, early: bool, events: seq<Event>)
    ensures Balanced(Run(Spawned(concurrency, early), events))
  {
    var s0 := Spawned(concurrency, early);
    NothingInFlight(s0.slots);
    forall s: State, e: Event | Wakeable(s) && Balanced(s) ensures Wakeable(Apply(s, e)) && Balanced(Apply(s, e)) {
      ApplyWakeable(s, e);
      ApplyBalanced(s, e);
    }
    FoldKeeps(Apply, s => Wakeable(s) && Balanced(s), s0, events);
  }

  /** No context build, no conversion of an output and no release of a completed step throws. */
  predicate Clean(s: State, events: seq<Event>) {
    events == [] ||
    (var n := |events| - 1;
     Clean(s, events[..n]) && !ThrowsOutside(Run(s, events[..n]), events[n]))
  }

  /** The event is a throw that ends a poll after its lease was granted, outside the handler. */
  predicate ThrowsOutside(s: State, e: Event) {
    e.At? && e.slot < |s.slots|
    && ((s.slots[e.slot] == Refreshing && e.outcome == ContextThrew)
        || (s.slots[e.slot] == Handling && e.outcome == OutputThrew)
        || (s.slots[e.slot] == ReleasingOk && e.outcome == ReleaseThrew))
  }

  lemma {:induction false} CleanNeverLeaks(concurrency: nat, early: bool, events: seq<Event>)
    ensures Run(Spawned(concurrency, early), events).leaked == 0 <==> Clean(Spawned(concurrency, early), events)
    decreases |events|
  {
    if events != [] { CleanNeverLeaks(concurrency, early, events[..|events| - 1]); }
  }

  lemma {:induction false} SlotCount(s: State, events: seq<Event>)
    ensures |Run(s, events).slots| == |s.slots|
    decreases |events|
  {
    if events != [] { SlotCount(s, events[..|events| - 1]); }
  }

  /** The bound holds exactly when the leaks fit into the slots that are not in flight; with no leak it always does. */
  lemma LeasedBound(concurrency: nat, early: bool, events: seq<Event>)
    ensures var s := Run(Spawned(concurrency, early), events);
            && (s.stats.leased <= s.stats.completed + s.stats.failed + concurrency
                <==> s.leaked + InFlight(s.slots) <= concurrency)
            && (Clean(Spawned(concurrency, early), events) ==>
                  s.stats.leased == s.stats.completed + s.stats.failed + InFlight(s.slots)
                  <= s.stats.completed + s.stats.failed + concurrency)
  {
    LeasesBalance(concurrency, early, events);
    CleanNeverLeaks(concurrency, early, events);
    SlotCount(Spawned(concurrency, early), events);
  }

  /** The counters add up without leaks exactly when no context build, no conversion of an output and no release of a
      completed step has thrown. */
  lemma BalancedIffClean(concurrency: nat, early: bool, events: seq<Event>)
    ensures var s := Run(Spawned(concurrency, early), events);
            s.stats.leased == s.stats.completed + s.stats.failed + InFlight(s.slots)
            <==> Clean(Spawned(concurrency, early), events)
  {
    LeasesBalance(concurrency, early, events);
    CleanNeverLeaks(concurrency, early, events);
  }

  /** A slot whose context build keeps throwing. */
  function LeakyRounds(n: nat): seq<Event> {
    if n == 0 then []
    else LeakyRounds(n - 1)
         + [At(0, Candidate)] + [At(0, LeaseGranted)] + [At(0, ContextThrew)]
         + [At(0, Resumed)] + [At(0, TimerFired)] + [At(0, Resumed)]
  }

  /** The first slot is at `phase`, and `n` leases have leaked. */
  function Leaky(concurrency: nat, phase: Phase, n: nat): State
    requires concurrency >= 1
  {
    Spawned(concurrency, false).(slots := Spawned(concurrency, false).slots[0 := phase],
                                 stats := Stats(n, 0, 0, 0), leaked := n)
  }

  /** With leaks there is no bound at all, whatever the concurrency: any number of leases, none completed, failed or in
      flight. */
  lemma {:induction false} LeaksBreakTheBound(concurrency: nat, n: nat)
    requires concurrency >= 1
    ensures Run(Spawned(concurrency, false), LeakyRounds(n)) == Leaky(concurrency, Discovering, n)
    ensures InFlight(Leaky(concurrency, Discovering, n).slots) == 0
    decreases n
  {
    var s0 := Spawned(concurrency, false);
    NothingInFlight(Leaky(concurrency, Discovering, n).slots);
    if n == 0 {
      assert s0.slots[0 := Discovering] == s0.slots;
    } else {
      LeaksBreakTheBound(concurrency, n - 1);
      LeakyLease(concurrency, LeakyRounds(n - 1), n - 1);
      var leased := LeakyRounds(n - 1) + [At(0, Candidate)] + [At(0, LeaseGranted)] + [At(0, ContextThrew)];
      LeakyRest(concurrency, leased, n);
    }
  }

  lemma LeakyLease(concurrency: nat, es: seq<Event>, n: nat)
    requires concurrency >= 1 && Run(Spawned(concurrency, false), es) == Leaky(concurrency, Discovering, n)
    ensures Run(Spawned(concurrency, false), es + [At(0, Candidate)] + [At(0, LeaseGranted)] + [At(0, ContextThrew)])
            == Leaky(concurrency, Returned(false), n + 1)
  {
    var s0 := Spawned(concurrency, false);
    var s1 := RunMore(s0, es, At(0, Candidate));
    assert s1 == Leaky(concurrency, Leasing, n);
    var s2 := RunMore(s0, es + [At(0, Candidate)], At(0, LeaseGranted));
    assert s2 == Leaky(concurrency, Refreshing, n).(stats := Stats(n + 1, 0, 0, 0));
    var s3 := RunMore(s0, es + [At(0, Candidate)] + [At(0, LeaseGranted)], At(0, ContextThrew));
    assert s3 == Leaky(concurrency, Returned(false), n + 1);
  }

  lemma LeakyRest(concurrency: nat, es: seq<Event>, n: nat)
    requires concurrency >= 1 && Run(Spawned(concurrency, false), es) == Leaky(concurrency, Returned(false), n)
    ensures Run(Spawned(concurrency, false), es + [At(0, Resumed)] + [At(0, TimerFired)] + [At(0, Resumed)])
            == Leaky(concurrency, Discovering, n)
  {
    var s0 := Spawned(concurrency, false);
    var s1 := RunMore(s0, es, At(0, Resumed));
    assert s1 == Leaky(concurrency, Sleeping, n).(waiters := [0]);
    var s2 := RunMore(s0, es + [At(0, Resumed)], At(0, TimerFired));
    assert s2 == Leaky(concurrency, Woken, n);
    var s3 := RunMore(s0, es + [At(0, Resumed)] + [At(0, TimerFired)], At(0, Resumed));
    assert s3 == Leaky(concurrency, Discovering, n);
  }

  lemma RunMore(s: State, events: seq<Event>, e: Event) returns (r: State)
    ensures r == Run(s, events + [e]) == Apply(Run(s, events), e)
  {
    assert (events + [e])[..|events|] == events;
    r := Run(s, events + [e]);
  }

  // ----- what the counters count -----

  /** How often a slot at this phase went on with this outcome. */
  function Times(s: State, events: seq<Event>, phase: Phase, outcome: Outcome): nat {
    if events == [] then 0
    else
      var n := |events| - 1;
      Times(s, events[..n], phase, outcome) + if Happens(Run(s, events[..n]), events[n], phase, outcome) then 1 else 0
  }

  predicate Happens(s: State, e: Event, phase: Phase, outcome: Outcome) {
    e.At? && e.outcome == outcome && e.slot < |s.slots| && s.slots[e.slot] == phase && Enabled(phase, outcome)
  }

  function CountAt(slots: seq<Phase>, phase: Phase): nat {
    if slots == [] then 0 else CountAt(slots[..|slots| - 1], phase) + if slots[|slots| - 1] == phase then 1 else 0
  }

  function One(b: bool): nat {
    if b then 1 else 0
  }

  lemma {:induction false} CountAtUpdate(slots: seq<Phase>, i: nat, to: Phase, phase: Phase)
    requires i < |slots|
    ensures CountAt(slots[i := to], phase) + One(slots[i] == phase) == CountAt(slots, phase) + One(to == phase)
    decreases |slots|
  {
    var n := |slots| - 1;
    if i == n {
      assert slots[i := to][..n] == slots[..n];
    } else {
      assert slots[i := to][..n] == slots[..n][i := to];
      CountAtUpdate(slots[..n], i, to, phase);
    }
  }

  lemma {:induction false} CountAtWake(slots: seq<Phase>, waiters: seq<nat>, phase: Phase)
    requires phase != Sleeping && phase != Woken && NoDuplicates(waiters)
    requires forall i :: i in waiters ==> i < |slots| && slots[i] == Sleeping
    ensures CountAt(WakeAll(slots, waiters), phase) == CountAt(slots, phase)
    decreases |waiters|
  {
    if waiters != [] {
      assert waiters[0] in waiters && forall i :: i in waiters[1..] ==> i in waiters && i != waiters[0];
      CountAtUpdate(slots, waiters[0], Woken, phase);
      CountAtWake(slots[waiters[0] := Woken], waiters[1..], phase);
    }
  }

  lemma {:induction false} NoneAt(concurrency: nat, early: bool, phase: Phase)
    requires phase != Discovering && phase != Exited
    ensures CountAt(Spawned(concurrency, early).slots, phase) == 0
  {
    NoneOf(Spawned(concurrency, early).slots, phase);
  }

  lemma {:induction false} NoneOf(slots: seq<Phase>, phase: Phase)
    requires forall i :: 0 <= i < |slots| ==> slots[i] != phase
    ensures CountAt(slots, phase) == 0
  {
    if slots != [] { NoneOf(slots[..|slots| - 1], phase); }
  }

  /** How one event changes the number of slots at a phase. */
  lemma CountStep(s: State, e: Event, phase: Phase)
    requires Wakeable(s) && phase != Sleeping && phase != Woken
    ensures var s' := Apply(s, e);
            if e.At? && Effective(s, e) then
              CountAt(s'.slots, phase) + One(s.slots[e.slot] == phase)
              == CountAt(s.slots, phase) + One(After(s.slots[e.slot], e.outcome, s.stopping) == phase)
            else CountAt(s'.slots, phase) == CountAt(s.slots, phase)
  {
    if e == Stop {
      CountAtWake(s.slots, s.waiters, phase);
    } else if Effective(s, e) {
      CountAtUpdate(s.slots, e.slot, After(s.slots[e.slot], e.outcome, s.stopping), phase);
    }
  }

  lemma LeasesStep(s: State, e: Event)
    requires Wakeable(s)
    ensures var s' := Apply(s, e);
            && s'.stats.leased == s.stats.leased + One(Happens(s, e, Leasing, LeaseGranted))
            && s'.stats.lost == s.stats.lost + One(Happens(s, e, Leasing, LeaseLost))
            && One(Happens(s, e, Discovering, Candidate)) + CountAt(s.slots, Leasing)
               == One(Happens(s, e, Leasing, LeaseGranted)) + One(Happens(s, e, Leasing, LeaseLost))
                  + One(Happens(s, e, Leasing, LeaseThrew)) + CountAt(s'.slots, Leasing)
  {
    CountStep(s, e, Leasing);
  }

  /** Every candidate is followed by a lease request, and the counters count what was granted and what was lost. */
  lemma {:induction false} LeasesCounted(concurrency: nat, early: bool, events: seq<Event>)
    ensures var s0 := Spawned(concurrency, early);
            var s := Run(s0, events);
            && s.stats.leased == Times(s0, events, Leasing, LeaseGranted)
            && s.stats.lost == Times(s0, events, Leasing, LeaseLost)
            && Times(s0, events, Discovering, Candidate)
               == s.stats.leased + s.stats.lost + Times(s0, events, Leasing, LeaseThrew) + CountAt(s.slots, Leasing)
    decreases |events|
  {
    var s0 := Spawned(concurrency, early);
    if events == [] {
      NoneAt(concurrency, early, Leasing);
    } else {
      var n := |events| - 1;
      LeasesCounted(concurrency, early, events[..n]);
      NoLostWakeUp(concurrency, early, events[..n]);
      LeasesStep(Run(s0, events[..n]), events[n]);
    }
  }

  lemma HandlersStep(s: State, e: Event)
    requires Wakeable(s)
    ensures var s' := Apply(s, e);
            && One(Happens(s, e, Leasing, LeaseGranted)) + CountAt(s.slots, Refreshing)
               == One(Happens(s, e, Refreshing, ContextBuilt)) + One(Happens(s, e, Refreshing, ContextThrew))
                  + CountAt(s'.slots, Refreshing)
            && One(Happens(s, e, Refreshing, ContextBuilt)) + CountAt(s.slots, Handling)
               == One(Happens(s, e, Handling, HandlerReturned)) + One(Happens(s, e, Handling, HandlerThrew))
                  + One(Happens(s, e, Handling, OutputThrew)) + CountAt(s'.slots, Handling)
  {
    CountStep(s, e, Refreshing);
    CountStep(s, e, Handling);
  }

  /** Every granted lease is followed by the building of a context, and every context that is built by the handler. */
  lemma {:induction false} HandlersRun(concurrency: nat, early: bool, events: seq<Event>)
    ensures var s0 := Spawned(concurrency, early);
            var s := Run(s0, events);
            && Times(s0, events, Leasing, LeaseGranted)
               == Times(s0, events, Refreshing, ContextBuilt) + Times(s0, events, Refreshing, ContextThrew)
                  + CountAt(s.slots, Refreshing)
            && Times(s0, events, Refreshing, ContextBuilt)
               == Times(s0, events, Handling, HandlerReturned) + Times(s0, events, Handling, HandlerThrew)
                  + Times(s0, events, Handling, OutputThrew) + CountAt(s.slots, Handling)
    decreases |events|
  {
    var s0 := Spawned(concurrency, early);
    if events == [] {
      NoneAt(concurrency, early, Refreshing);
      NoneAt(concurrency, early, Handling);
    } else {
      var n := |events| - 1;
      HandlersRun(concurrency, early, events[..n]);
      NoLostWakeUp(concurrency, early, events[..n]);
      HandlersStep(Run(s0, events[..n]), events[n]);
    }
  }

  lemma CompletedStep(s: State, e: Event)
    requires Wakeable(s)
    ensures var s' := Apply(s, e);
            && s'.stats.completed == s.stats.completed + One(Happens(s, e, ReleasingOk, ReleaseSettled))
            && s'.stats.failed == s.stats.failed + One(Happens(s, e, Handling, HandlerThrew))
            && One(Happens(s, e, Handling, HandlerReturned)) + CountAt(s.slots, ReleasingOk)
               == One(Happens(s, e, ReleasingOk, ReleaseSettled)) + One(Happens(s, e, ReleasingOk, ReleaseThrew))
                  + CountAt(s'.slots, ReleasingOk)
  {
    CountStep(s, e, ReleasingOk);
  }

  /** A step is counted as completed when its handler has returned and its release has settled, and as failed when its
      handler has thrown; whatever the release of a failed step does. */
  lemma {:induction false} CompletedMeansHandled(concurrency: nat, early: bool, events: seq<Event>)
    ensures var s0 := Spawned(concurrency, early);
            var s := Run(s0, events);
            && s.stats.completed == Times(s0, events, ReleasingOk, ReleaseSettled)
            && Times(s0, events, Handling, HandlerReturned)
               == s.stats.completed + Times(s0, events, ReleasingOk, ReleaseThrew) + CountAt(s.slots, ReleasingOk)
            && s.stats.failed == Times(s0, events, Handling, HandlerThrew)
    decreases |events|
  {
    var s0 := Spawned(concurrency, early);
    if events == [] {
      NoneAt(concurrency, early, ReleasingOk);
    } else {
      var n := |events| - 1;
      CompletedMeansHandled(concurrency, early, events[..n]);
      NoLostWakeUp(concurrency, early, events[..n]);
      CompletedStep(Run(s0, events[..n]), events[n]);
    }
  }

  lemma ThrowsStep(s: State, e: Event)
    requires Wakeable(s)
    ensures var s' := Apply(s, e);
            && One(Happens(s, e, Handling, HandlerThrew)) + CountAt(s.slots, ReleasingFailed)
               == One(Happens(s, e, ReleasingFailed, ReleaseSettled))
                  + One(Happens(s, e, ReleasingFailed, ReleaseThrew)) + CountAt(s'.slots, ReleasingFailed)
            && s'.leaked == s.leaked + One(Happens(s, e, Refreshing, ContextThrew))
                            + One(Happens(s, e, Handling, OutputThrew)) + One(Happens(s, e, ReleasingOk, ReleaseThrew))
  {
    CountStep(s, e, ReleasingFailed);
  }

  /** Every failed step is released as well, and what leaks are exactly the three throws. */
  lemma {:induction false} ThrowsCounted(concurrency: nat, early: bool, events: seq<Event>)
    ensures var s0 := Spawned(concurrency, early);
            var s := Run(s0, events);
            && Times(s0, events, Handling, HandlerThrew)
               == Times(s0, events, ReleasingFailed, ReleaseSettled) + Times(s0, events, ReleasingFailed, ReleaseThrew)
                  + CountAt(s.slots, ReleasingFailed)
            && s.leaked
               == Times(s0, events, Refreshing, ContextThrew) + Times(s0, events, Handling, OutputThrew)
                  + Times(s0, events, ReleasingOk, ReleaseThrew)
    decreases |events|
  {
    var s0 := Spawned(concurrency, early);
    if events == [] {
      NoneAt(concurrency, early, ReleasingFailed);
    } else {
      var n := |events| - 1;
      ThrowsCounted(concurrency, early, events[..n]);
      NoLostWakeUp(concurrency, early, events[..n]);
      ThrowsStep(Run(s0, events[..n]), events[n]);
    }
  }

  // ----- draining -----

  /** How many leases a slot may still take once `stopping` is set. */
  function MayLease(phase: Phase): nat {
    if phase == Discovering || phase == Leasing then 1 else 0
  }

  function GrantsTo(s: State, events: seq<Event>, slot: nat): nat {
    if events == [] then 0
    else
      var n := |events| - 1;
      GrantsTo(s, events[..n], slot)
      + if events[n] == At(slot, LeaseGranted) && Effective(Run(s, events[..n]), events[n]) then 1 else 0
  }

  ghost predicate Stopped(s: State) {
    s.stopping && Wakeable(s)
  }

  lemma ApplyStopped(s: State, e: Event, slot: nat)
    requires Stopped(s) && slot < |s.slots|
    ensures Stopped(Apply(s, e)) && |Apply(s, e).slots| == |s.slots|
    ensures MayLease(Apply(s, e).slots[slot]) + (if e == At(slot, LeaseGranted) && Effective(s, e) then 1 else 0)
            <= MayLease(s.slots[slot])
  {
    ApplyWakeable(s, e);
  }

  /** After `stop`, however the slots interleave, a slot takes at most one more lease, and only if it was already
      looking for one. */
  lemma {:induction false} OneMoreLease(s: State, events: seq<Event>, slot: nat)
    requires Stopped(s) && slot < |s.slots|
    ensures Stopped(Run(s, events)) && |Run(s, events).slots| == |s.slots|
    ensures GrantsTo(s, events, slot) + MayLease(Run(s, events).slots[slot]) <= MayLease(s.slots[slot]) <= 1
    decreases |events|
  {
    if events != [] {
      var n := |events| - 1;
      OneMoreLease(s, events[..n], slot);
      ApplyStopped(Run(s, events[..n]), events[n], slot);
    }
  }

  /** How many segments a slot still runs before it exits, once `stopping` is set. */
  function Rank(phase: Phase): nat {
    match phase
    case Discovering => 6
    case Leasing => 5
    case Refreshing => 4
    case Handling => 3
    case ReleasingOk | ReleasingFailed => 2
    case Sleeping => 2
    case Returned(_) => 1
    case Woken => 1
    case Exited => 0
  }

  function TotalRank(slots: seq<Phase>): (n: nat)
    ensures n <= 6 * |slots|
  {
    if slots == [] then 0 else TotalRank(slots[..|slots| - 1]) + Rank(slots[|slots| - 1])
  }

  lemma {:induction false} RankUpdate(slots: seq<Phase>, i: nat, phase: Phase)
    requires i < |slots|
    ensures TotalRank(slots[i := phase]) == TotalRank(slots) - Rank(slots[i]) + Rank(phase)
    decreases |slots|
  {
    var n := |slots| - 1;
    if i == n {
      assert slots[i := phase][..n] == slots[..n];
    } else {
      assert slots[i := phase][..n] == slots[..n][i := phase];
      RankUpdate(slots[..n], i, phase);
    }
  }

  lemma {:induction false} RankZero(slots: seq<Phase>)
    ensures TotalRank(slots) == 0 <==> forall i :: 0 <= i < |slots| ==> slots[i] == Exited
  {
    if slots != [] {
      var n := |slots| - 1;
      RankZero(slots[..n]);
      assert (forall i :: 0 <= i < |slots| ==> slots[i] == Exited) <==>
             slots[n] == Exited && forall i :: 0 <= i < n ==> slots[..n][i] == Exited;
    }
  }

  /** The number of segments that actually ran. */
  function Segments(s: State, events: seq<Event>): nat {
    if events == [] then 0
    else
      var n := |events| - 1;
      Segments(s, events[..n]) + if events[n] != Stop && Effective(Run(s, events[..n]), events[n]) then 1 else 0
  }

  lemma ApplyDrains(s: State, e: Event)
    requires Stopped(s)
    ensures TotalRank(Apply(s, e).slots) + (if e != Stop && Effective(s, e) then 1 else 0) <= TotalRank(s.slots)
  {
    if e != Stop && Effective(s, e) {
      RankUpdate(s.slots, e.slot, After(s.slots[e.slot], e.outcome, s.stopping));
      RankDrops(s.slots[e.slot], e.outcome);
    }
  }

  lemma RankDrops(phase: Phase, outcome: Outcome)
    requires Enabled(phase, outcome)
    ensures Rank(After(phase, outcome, true)) < Rank(phase)
  {
  }

  /** After `stop`, at most six segments per slot run. */
  lemma {:induction false} DrainEnds(s: State, events: seq<Event>)
    requires Stopped(s)
    ensures Stopped(Run(s, events))
    ensures Segments(s, events) + TotalRank(Run(s, events).slots) <= TotalRank(s.slots) <= 6 * |s.slots|
    decreases |events|
  {
    if events != [] {
      var n := |events| - 1;
      DrainEnds(s, events[..n]);
      ApplyWakeable(Run(s, events[..n]), events[n]);
      ApplyDrains(Run(s, events[..n]), events[n]);
    }
  }

  /** How often slot `slot` moves. */
  function Moves(s: State, events: seq<Event>, slot: nat): nat {
    if events == [] then 0
    else
      var n := |events| - 1;
      Moves(s, events[..n], slot)
      + if events[n].At? && events[n].slot == slot && Effective(Run(s, events[..n]), events[n]) then 1 else 0
  }

  lemma {:induction false} MovesLowerRank(s: State, events: seq<Event>, slot: nat)
    requires Stopped(s) && slot < |s.slots|
    ensures |Run(s, events).slots| == |s.slots| && Stopped(Run(s, events))
    ensures Moves(s, events, slot) + Rank(Run(s, events).slots[slot]) <= Rank(s.slots[slot])
    decreases |events|
  {
    if events != [] {
      var n := |events| - 1;
      var mid, e := Run(s, events[..n]), events[n];
      MovesLowerRank(s, events[..n], slot);
      ApplyWakeable(mid, e);
      if e.At? && Effective(mid, e) { RankDrops(mid.slots[e.slot], e.outcome); }
    }
  }

  /** A round in which every await settles: each slot that has not exited moves at least once. */
  ghost predicate EveryoneMoves(s: State, round: seq<Event>) {
    forall slot :: 0 <= slot < |s.slots| ==> s.slots[slot] == Exited || Moves(s, round, slot) >= 1
  }

  function RunRounds(s: State, rounds: seq<seq<Event>>): State {
    Fold(Run, s, rounds)
  }

  ghost predicate Fair(s: State, rounds: seq<seq<Event>>) {
    forall k :: 0 <= k < |rounds| ==> EveryoneMoves(RunRounds(s, rounds[..k]), rounds[k])
  }

  lemma FairBefore(s: State, rounds: seq<seq<Event>>)
    requires rounds != [] && Fair(s, rounds)
    ensures var n := |rounds| - 1; Fair(s, rounds[..n]) && EveryoneMoves(RunRounds(s, rounds[..n]), rounds[n])
  {
    var n := |rounds| - 1;
    forall k | 0 <= k < n ensures EveryoneMoves(RunRounds(s, rounds[..n][..k]), rounds[..n][k]) {
      assert rounds[..n][..k] == rounds[..k];
    }
  }

  lemma {:induction false} RoundsLowerRank(s: State, rounds: seq<seq<Event>>, slot: nat)
    requires Stopped(s) && slot < |s.slots| && Fair(s, rounds)
    ensures var end := RunRounds(s, rounds);
            && |end.slots| == |s.slots| && Stopped(end)
            && (end.slots[slot] == Exited || Rank(end.slots[slot]) + |rounds| <= Rank(s.slots[slot]))
    decreases |rounds|
  {
    if rounds != [] {
      var n := |rounds| - 1;
      var mid := RunRounds(s, rounds[..n]);
      FairBefore(s, rounds);
      RoundsLowerRank(s, rounds[..n], slot);
      MovesLowerRank(mid, rounds[n], slot);
    }
  }

  /** The worker drains: after `stop`, once every pending await has settled six times over, however the slots interleave
      and whatever the awaits resolve with, every slot loop has left, so `run` resolves. */
  lemma DrainsInSixRounds(s: State, rounds: seq<seq<Event>>)
    requires Stopped(s) && Fair(s, rounds) && |rounds| >= 6
    ensures var end := RunRounds(s, rounds);
            |end.slots| == |s.slots| && forall slot :: 0 <= slot < |end.slots| ==> end.slots[slot] == Exited
  {
    var end := RunRounds(s, rounds);
    if s.slots != [] { RoundsLowerRank(s, rounds, 0); } else { RoundsKeepNone(s, rounds); }
    forall slot | 0 <= slot < |end.slots| ensures end.slots[slot] == Exited {
      RoundsLowerRank(s, rounds, slot);
    }
  }

  lemma {:induction false} RoundsKeepNone(s: State, rounds: seq<seq<Event>>)
    requires s.slots == []
    ensures RunRounds(s, rounds).slots == []
    decreases |rounds|
  {
    if rounds != [] {
      RoundsKeepNone(s, rounds[..|rounds| - 1]);
      SlotCount(RunRounds(s, rounds[..|rounds| - 1]), rounds[|rounds| - 1]);
    }
  }

  /** In particular, a run after `stop` in which as many segments ran as the slots had left has drained the worker. */
  lemma Drained(s: State, events: seq<Event>)
    requires Stopped(s) && Segments(s, events) == TotalRank(s.slots)
    ensures forall i :: 0 <= i < |Run(s, events).slots| ==> Run(s, events).slots[i] == Exited
  {
    DrainEnds(s, events);
    RankZero(Run(s, events).slots);
  }
}
