/** Leases in real time: many workers, one lease server, one reaper.

    The server's rules are those the worker's README states: only a pending step can be leased, a grant or a
    delivered beat sets the expiry to the server's clock plus the ttl, and the reaper turns an expired lease back
    into a pending step.  A step's handler starts together with its heartbeat timer. */
module Leases {
  import opened Runs

  /** `delta` bounds the delay from the grant to the heartbeat timer (the reply, the refresh, the context build),
      `gap` the time from one successful beat to the next, `lambda` the delivery of a beat. */
  datatype Timing = Timing(ttl: real, delta: real, gap: real, lambda: real) {
    predicate Valid() {
      ttl > 0.0 && delta >= 0.0 && gap > 0.0 && lambda >= 0.0
    }

    /** The longest silence between a grant or a delivered beat and the next delivery. */
    function Silence(): real {
      delta + gap + lambda
    }
  }

  datatype Step = Pending | Held(session: nat, expires: real) | Closed

  /** A worker's hold on a step: before its timer is on, or with the handler live and the next beat due. */
  datatype Phase = Starting(deadline: real) | Live(nextBeat: real)

  /** `beats` are the deadlines of the beats on their way to the server. */
  datatype Session = Session(step: nat, phase: Phase, beats: seq<real>)

  datatype Server = Server(now: real, steps: map<nat, Step>, sessions: map<nat, Session>, nextSession: nat)

  datatype Event =
    | Tick(to: real)
    | Submit(step: nat)
    | Grant(step: nat)
    | StartTimer(session: nat)
    | Beat(session: nat)
    | Deliver(session: nat, i: nat)
    | Release(session: nat)
    | Die(session: nat)
    | Reap(step: nat)

  /** Nothing scheduled is overdue at time `to`. */
  ghost predicate OnTime(s: Session, to: real) {
    && (s.phase.Starting? ==> to <= s.phase.deadline)
    && (s.phase.Live? ==> to <= s.phase.nextBeat)
    && forall i :: 0 <= i < |s.beats| ==> to <= s.beats[i]
  }

  ghost predicate Enabled(s: Server, e: Event) {
    match e
    case Tick(to) => s.now <= to && forall id :: id in s.sessions ==> OnTime(s.sessions[id], to)
    case Submit(step) => step !in s.steps
    case Grant(step) => step in s.steps && s.steps[step] == Pending
    case StartTimer(id) => id in s.sessions && s.sessions[id].phase.Starting?
    case Beat(id) => id in s.sessions && s.sessions[id].phase.Live?
    case Deliver(id, i) => id in s.sessions && i < |s.sessions[id].beats|
    case Release(id) => id in s.sessions && s.sessions[id].phase.Live?
    case Die(id) => id in s.sessions
    case Reap(step) => step in s.steps && s.steps[step].Held? && s.steps[step].expires <= s.now
  }

  /** A beat or a release is honoured only while the step is still leased to the sender. */
  predicate Holds(s: Server, id: nat, step: nat) {
    step in s.steps && s.steps[step].Held? && s.steps[step].session == id
  }

  function Extended(t: Timing, s: Server, id: nat, step: nat): map<nat, Step> {
    if Holds(s, id, step) then s.steps[step := Held(id, s.now + t.ttl)] else s.steps
  }

  function Without(beats: seq<real>, i: nat): seq<real>
    requires i < |beats|
  {
    beats[..i] + beats[i + 1..]
  }

  ghost function Act(t: Timing, s: Server, e: Event): Server
    requires Enabled(s, e)
  {
    match e
    case Tick(to) => s.(now := to)
    case Submit(step) => s.(steps := s.steps[step := Pending])
    case Grant(step) =>
      s.(steps := s.steps[step := Held(s.nextSession, s.now + t.ttl)],
         sessions := s.sessions[s.nextSession := Session(step, Starting(s.now + t.delta), [])],
         nextSession := s.nextSession + 1)
    case StartTimer(id) => s.(sessions := s.sessions[id := s.sessions[id].(phase := Live(s.now + t.gap))])
    case Beat(id) =>
      var x := s.sessions[id];
      s.(sessions := s.sessions[id := Session(x.step, Live(s.now + t.gap), x.beats + [s.now + t.lambda])])
    case Deliver(id, i) =>
      var x := s.sessions[id];
      s.(steps := Extended(t, s, id, x.step), sessions := s.sessions[id := x.(beats := Without(x.beats, i))])
    case Release(id) =>
      var step := s.sessions[id].step;
      s.(steps := if Holds(s, id, step) then s.steps[step := Closed] else s.steps, sessions := s.sessions - {id})
    case Die(id) => s.(sessions := s.sessions - {id})
    case Reap(step) => s.(steps := s.steps[step := Pending])
  }

  ghost function Apply(t: Timing, s: Server, e: Event): Server {
    if Enabled(s, e) then Act(t, s, e) else s
  }

  const EMPTY := Server(0.0, map[], map[], 0)

  ghost function Run(t: Timing, events: seq<Event>): Server {
    Fold((s: Server, e: Event) => Apply(t, s, e), EMPTY, events)
  }

  ghost function From(t: Timing, s: Server, events: seq<Event>): Server {
    Fold((s: Server, e: Event) => Apply(t, s, e), s, events)
  }

  // ----- what must never happen -----

  /** A live handler still holds the lease on its step, and the lease has not expired. */
  ghost predicate Protected(s: Server, id: nat) {
    id in s.sessions && s.sessions[id].phase.Live? ==>
      Holds(s, id, s.sessions[id].step) && s.now < s.steps[s.sessions[id].step].expires
  }

  ghost predicate TwoHandlers(s: Server, a: nat, b: nat) {
    && a != b && a in s.sessions && b in s.sessions
    && s.sessions[a].phase.Live? && s.sessions[b].phase.Live? && s.sessions[a].step == s.sessions[b].step
  }

  // ----- safety -----

  /** A delivery that the server is certain to get before time `expires`. */
  ghost predicate Covered(t: Timing, s: Session, now: real, expires: real) {
    match s.phase
    case Starting(deadline) => deadline + t.gap + t.lambda < expires && s.beats == []
    case Live(nextBeat) =>
      nextBeat <= now + t.gap
      && (nextBeat + t.lambda < expires || exists i :: 0 <= i < |s.beats| && s.beats[i] < expires)
  }

  ghost predicate Sound(t: Timing, s: Server, id: nat, x: Session) {
    && Holds(s, id, x.step)
    && OnTime(x, s.now)
    && Covered(t, x, s.now, s.steps[x.step].expires)
  }

  ghost predicate Safe(t: Timing, s: Server) {
    && (forall id :: id in s.sessions ==> id < s.nextSession)
    && (forall id :: id in s.sessions ==> Sound(t, s, id, s.sessions[id]))
  }

  lemma SafeProtects(t: Timing, s: Server, id: nat)
    requires t.Valid() && Safe(t, s) && id in s.sessions
    ensures Holds(s, id, s.sessions[id].step) && s.now < s.steps[s.sessions[id].step].expires
  {
    assert Sound(t, s, id, s.sessions[id]);
  }

  /** The lease is long enough for the longest silence. */
  predicate LongEnough(t: Timing) {
    t.Silence() < t.ttl
  }

  /** A change that leaves alone the clock, the session and the step it holds. */
  lemma Untouched(t: Timing, s: Server, s': Server, id: nat)
    requires Safe(t, s) && id in s.sessions && s'.now == s.now
    requires s.sessions[id].step in s'.steps && s'.steps[s.sessions[id].step] == s.steps[s.sessions[id].step]
    ensures Sound(t, s', id, s.sessions[id])
  {
    assert Sound(t, s, id, s.sessions[id]);
  }

  lemma TickSafe(t: Timing, s: Server, to: real)
    requires t.Valid() && Safe(t, s) && Enabled(s, Tick(to))
    ensures Safe(t, Apply(t, s, Tick(to)))
  {
    forall id | id in s.sessions ensures Sound(t, s.(now := to), id, s.sessions[id]) {
      assert Sound(t, s, id, s.sessions[id]);
    }
  }

  lemma GrantSafe(t: Timing, s: Server, step: nat)
    requires t.Valid() && LongEnough(t) && Safe(t, s) && Enabled(s, Grant(step))
    ensures Safe(t, Apply(t, s, Grant(step)))
  {
    var s' := Apply(t, s, Grant(step));
    forall id | id in s'.sessions ensures Sound(t, s', id, s'.sessions[id]) {
      if id in s.sessions {
        assert Sound(t, s, id, s.sessions[id]);
        Untouched(t, s, s', id);
      }
    }
  }

  lemma BeatSafe(t: Timing, s: Server, id: nat)
    requires t.Valid() && Safe(t, s) && Enabled(s, Beat(id))
    ensures Safe(t, Apply(t, s, Beat(id)))
  {
    var s' := Apply(t, s, Beat(id));
    forall other | other in s'.sessions ensures Sound(t, s', other, s'.sessions[other]) {
      assert Sound(t, s, other, s.sessions[other]);
      if other == id { BeatCovers(t, s.sessions[id], s.now, s.steps[s.sessions[id].step].expires); }
    }
  }

  lemma BeatCovers(t: Timing, x: Session, now: real, expires: real)
    requires t.Valid() && x.phase.Live? && OnTime(x, now) && Covered(t, x, now, expires)
    ensures var x' := Session(x.step, Live(now + t.gap), x.beats + [now + t.lambda]);
            OnTime(x', now) && Covered(t, x', now, expires)
  {
    var beats := x.beats + [now + t.lambda];
    if x.phase.nextBeat + t.lambda < expires {
      assert beats[|x.beats|] < expires;
    } else {
      var i :| 0 <= i < |x.beats| && x.beats[i] < expires;
      assert beats[i] < expires;
    }
  }

  lemma DeliverSafe(t: Timing, s: Server, id: nat, i: nat)
    requires t.Valid() && LongEnough(t) && Safe(t, s) && Enabled(s, Deliver(id, i))
    ensures Safe(t, Apply(t, s, Deliver(id, i)))
  {
    var s' := Apply(t, s, Deliver(id, i));
    assert Sound(t, s, id, s.sessions[id]);
    forall other | other in s'.sessions ensures Sound(t, s', other, s'.sessions[other]) {
      assert Sound(t, s, other, s.sessions[other]);
      if other == id { WithoutOnTime(s.sessions[id], s.now, i); }
    }
  }

  lemma WithoutOnTime(x: Session, now: real, i: nat)
    requires OnTime(x, now) && i < |x.beats|
    ensures OnTime(x.(beats := Without(x.beats, i)), now)
  {
    var beats := Without(x.beats, i);
    forall j | 0 <= j < |beats| ensures now <= beats[j] {
      assert beats[j] == x.beats[if j < i then j else j + 1];
    }
  }

  lemma OthersSafe(t: Timing, s: Server, e: Event)
    requires t.Valid() && Safe(t, s) && Enabled(s, e)
    requires e.Submit? || e.StartTimer? || e.Release? || e.Die? || e.Reap?
    ensures Safe(t, Apply(t, s, e))
  {
    var s' := Apply(t, s, e);
    forall id | id in s'.sessions ensures Sound(t, s', id, s'.sessions[id]) {
      assert Sound(t, s, id, s.sessions[id]);
      SafeProtects(t, s, id);
    }
  }

  lemma ApplySafe(t: Timing, s: Server, e: Event)
    requires t.Valid() && LongEnough(t) && Safe(t, s)
    ensures Safe(t, Apply(t, s, e))
  {
    if Enabled(s, e) {
      match e {
        case Tick(to) => TickSafe(t, s, to);
        case Grant(step) => GrantSafe(t, s, step);
        case Beat(id) => BeatSafe(t, s, id);
        case Deliver(id, i) => DeliverSafe(t, s, id, i);
        case _ => OthersSafe(t, s, e);
      }
    }
  }

  lemma RunSafe(t: Timing, events: seq<Event>)
    requires t.Valid() && LongEnough(t)
    ensures Safe(t, Run(t, events))
  {
    forall s: Server, e: Event | Safe(t, s) ensures Safe(t, Apply(t, s, e)) { ApplySafe(t, s, e); }
    FoldKeeps((s: Server, e: Event) => Apply(t, s, e), (s: Server) => Safe(t, s), EMPTY, events);
  }

  /** In every timed run of any number of workers: no step with a live handler is ever reclaimed, so no step ever has
      two live handlers. */
  lemma NeverTwoHandlers(t: Timing, events: seq<Event>, a: nat, b: nat)
    requires t.Valid() && LongEnough(t)
    ensures Protected(Run(t, events), a) && !TwoHandlers(Run(t, events), a, b)
  {
    RunSafe(t, events);
    if a in Run(t, events).sessions { SafeProtects(t, Run(t, events), a); }
    if b in Run(t, events).sessions { SafeProtects(t, Run(t, events), b); }
  }

  // ----- recovery -----

  ghost predicate Bounded(t: Timing, s: Server) {
    && (forall step :: step in s.steps && s.steps[step].Held? ==> s.steps[step].expires <= s.now + t.ttl)
    && (forall id :: id in s.sessions ==> id < s.nextSession)
  }

  /** The session is gone, and if it still holds the step its lease is no longer extended. */
  ghost predicate Abandoned(s: Server, id: nat, step: nat, expires: real) {
    && id < s.nextSession && id !in s.sessions
    && (Holds(s, id, step) ==> s.steps[step].expires == expires)
  }

  /** A worker that dies holding a step: however the others go on, the lease runs out at most one ttl after the death,
      and from then on the reaper can take the step back. */
  lemma DeadWorkersLease(t: Timing, before: seq<Event>, id: nat, step: nat, after: seq<Event>)
    requires t.Valid() && id in Run(t, before).sessions && Holds(Run(t, before), id, step)
    ensures var s, s' := Run(t, before), From(t, Apply(t, Run(t, before), Die(id)), after);
            Holds(s', id, step) ==>
              s'.steps[step].expires <= s.now + t.ttl
              && (s'.now >= s.now + t.ttl ==> Enabled(s', Reap(step)))
  {
    forall s: Server, e: Event | Bounded(t, s) ensures Bounded(t, Apply(t, s, e)) { ApplyBounded(t, s, e); }
    FoldKeeps((s: Server, e: Event) => Apply(t, s, e), (s: Server) => Bounded(t, s), EMPTY, before);
    var s := Run(t, before);
    var expires := s.steps[step].expires;
    forall s: Server, e: Event | Abandoned(s, id, step, expires) ensures Abandoned(Apply(t, s, e), id, step, expires) {
      ApplyAbandoned(t, s, e, id, step, expires);
    }
    FoldKeeps((s: Server, e: Event) => Apply(t, s, e), (s: Server) => Abandoned(s, id, step, expires),
              Apply(t, s, Die(id)), after);
  }

  lemma ApplyBounded(t: Timing, s: Server, e: Event)
    requires Bounded(t, s)
    ensures Bounded(t, Apply(t, s, e))
  {
  }

  lemma ApplyAbandoned(t: Timing, s: Server, e: Event, id: nat, step: nat, expires: real)
    requires Abandoned(s, id, step, expires)
    ensures Abandoned(Apply(t, s, e), id, step, expires)
  {
  }

  // ----- released steps -----

  ghost predicate IsClosed(s: Server, step: nat) {
    step in s.steps && s.steps[step] == Closed
  }

  lemma ApplyClosed(t: Timing, s: Server, e: Event, step: nat)
    requires IsClosed(s, step)
    ensures IsClosed(Apply(t, s, e), step)
  {
  }

  /** When the lease is long enough, the release of a step by its live handler is always honoured, and however the
      workers go on the step is never pending or leased again. */
  lemma ReleasedForGood(t: Timing, before: seq<Event>, id: nat, after: seq<Event>)
    requires t.Valid() && LongEnough(t)
    requires id in Run(t, before).sessions && Run(t, before).sessions[id].phase.Live?
    ensures var s := Run(t, before);
            IsClosed(From(t, Apply(t, s, Release(id)), after), s.sessions[id].step)
  {
    RunSafe(t, before);
    SafeProtects(t, Run(t, before), id);
    var step := Run(t, before).sessions[id].step;
    forall s: Server, e: Event | IsClosed(s, step) ensures IsClosed(Apply(t, s, e), step) {
      ApplyClosed(t, s, e, step);
    }
    FoldKeeps((s: Server, e: Event) => Apply(t, s, e), (s: Server) => IsClosed(s, step),
              Apply(t, Run(t, before), Release(id)), after);
  }

  /** A release or a beat that comes after the step has been taken away changes no step. */
  lemma LateOnesIgnored(t: Timing, s: Server, id: nat, e: Event)
    requires id in s.sessions && !Holds(s, id, s.sessions[id].step)
    requires e == Release(id) || (e.Deliver? && e.session == id)
    ensures Apply(t, s, e).steps == s.steps
  {
  }

  // ----- the condition is exact -----

  lemma Then(t: Timing, s: Server, events: seq<Event>, e: Event) returns (r: seq<Event>)
    ensures r == events + [e] && From(t, s, r) == Apply(t, From(t, s, events), e)
  {
    r := events + [e];
    assert r[..|events|] == events;
  }

  /** Session 0 is live on step 7, granted at time 0, and none of its beats has arrived. */
  function Unheard(t: Timing, now: real, nextBeat: real, beats: seq<real>): Server {
    Server(now, map[7 := Held(0, t.ttl)], map[0 := Session(7, Live(nextBeat), beats)], 1)
  }

  function Times(k: nat, x: real): real {
    if k == 0 then 0.0 else Times(k - 1, x) + x
  }

  lemma {:induction false} TimesIsProduct(k: nat, x: real)
    ensures Times(k, x) == k as real * x
  {
    if k > 0 {
      TimesIsProduct(k - 1, x);
      assert k as real * x == (k - 1) as real * x + x;
    }
  }

  lemma Reaches(x: real, goal: real) returns (k: nat)
    requires x > 0.0 && goal > 0.0
    ensures Times(k, x) >= goal
  {
    k := (goal / x).Floor + 1;
    TimesIsProduct(k, x);
    assert k as real >= goal / x;
    assert k as real * x >= goal / x * x;
  }

  /** Beats go out on schedule and all arrive too late. */
  lemma {:induction false} WaitOut(t: Timing, now: real, beats: seq<real>, k: nat)
    returns (events: seq<Event>, nextBeat: real, late: seq<real>)
    requires t.Valid() && !LongEnough(t) && t.delta <= now <= t.ttl && now + Times(k, t.gap) >= t.ttl
    requires forall i :: 0 <= i < |beats| ==> beats[i] >= t.ttl
    ensures From(t, Unheard(t, now, now + t.gap, beats), events) == Unheard(t, t.ttl, nextBeat, late)
    decreases k
  {
    var s := Unheard(t, now, now + t.gap, beats);
    if now + t.gap >= t.ttl {
      events := Then(t, s, [], Tick(t.ttl));
      nextBeat, late := now + t.gap, beats;
    } else {
      var sent := now + t.gap;
      var first := Then(t, s, [], Tick(sent));
      assert From(t, s, first) == Unheard(t, sent, sent, beats);
      first := Then(t, s, first, Beat(0));
      assert From(t, s, first) == Unheard(t, sent, sent + t.gap, beats + [sent + t.lambda]);
      var rest;
      rest, nextBeat, late := WaitOut(t, sent, beats + [sent + t.lambda], k - 1);
      events := first + rest;
      FoldAppend((s: Server, e: Event) => Apply(t, s, e), s, first, rest);
    }
  }

  lemma Granted(t: Timing) returns (events: seq<Event>)
    requires t.Valid()
    ensures Run(t, events) == Server(0.0, map[7 := Held(0, t.ttl)], map[0 := Session(7, Starting(t.delta), [])], 1)
  {
    events := Then(t, EMPTY, [], Submit(7));
    assert From(t, EMPTY, events) == Server(0.0, map[7 := Pending], map[], 0);
    events := Then(t, EMPTY, events, Grant(7));
  }

  /** The step is reclaimed and leased again. */
  lemma Takeover(t: Timing, events: seq<Event>, x: Session) returns (r: seq<Event>)
    requires t.Valid() && x.step == 7
    requires Run(t, events) == Server(t.ttl, map[7 := Held(0, t.ttl)], map[0 := x], 1)
    ensures Run(t, r) == Server(t.ttl, map[7 := Held(1, t.ttl + t.ttl)],
                                map[0 := x, 1 := Session(7, Live(t.ttl + t.gap), [])], 2)
  {
    r := Then(t, EMPTY, events, Reap(7));
    assert From(t, EMPTY, r) == Server(t.ttl, map[7 := Pending], map[0 := x], 1);
    r := Then(t, EMPTY, r, Grant(7));
    assert From(t, EMPTY, r) == Server(t.ttl, map[7 := Held(1, t.ttl + t.ttl)],
                                       map[0 := x, 1 := Session(7, Starting(t.ttl + t.delta), [])], 2);
    r := Then(t, EMPTY, r, StartTimer(1));
  }

  lemma SlowStart(t: Timing) returns (events: seq<Event>)
    requires t.Valid() && t.delta >= t.ttl
    ensures TwoHandlers(Run(t, events), 0, 1)
  {
    events := Granted(t);
    events := Then(t, EMPTY, events, Tick(t.ttl));
    events := Takeover(t, events, Session(7, Starting(t.delta), []));
    events := Then(t, EMPTY, events, StartTimer(0));
  }

  lemma LateBeats(t: Timing) returns (events: seq<Event>)
    requires t.Valid() && !LongEnough(t) && t.delta < t.ttl
    ensures TwoHandlers(Run(t, events), 0, 1)
  {
    events := Granted(t);
    events := Then(t, EMPTY, events, Tick(t.delta));
    events := Then(t, EMPTY, events, StartTimer(0));
    assert From(t, EMPTY, events) == Unheard(t, t.delta, t.delta + t.gap, []);
    var k := Reaches(t.gap, t.ttl);
    var silence, nextBeat, late := WaitOut(t, t.delta, [], k);
    FoldAppend((s: Server, e: Event) => Apply(t, s, e), EMPTY, events, silence);
    events := Takeover(t, events + silence, Session(7, Live(nextBeat), late));
  }

  ghost predicate AlwaysSafe(t: Timing) {
    forall events: seq<Event>, a: nat, b: nat :: !TwoHandlers(Run(t, events), a, b)
  }

  /** Two live handlers are impossible exactly when delay, beat gap and delivery together stay below the ttl. */
  lemma SafeIffLongEnough(t: Timing)
    requires t.Valid()
    ensures AlwaysSafe(t) <==> t.delta + t.gap + t.lambda < t.ttl
  {
    if LongEnough(t) {
      forall events: seq<Event>, a: nat, b: nat ensures !TwoHandlers(Run(t, events), a, b) {
        NeverTwoHandlers(t, events, a, b);
      }
    } else if t.delta >= t.ttl {
      var events := SlowStart(t);
    } else {
      var events := LateBeats(t);
    }
  }

  // ----- what the worker's constructor checks -----

  /** `heartbeat < ttl` is exactly what makes the hypotheses satisfiable with positive delays when every beat
      succeeds. */
  lemma ConstructorCheck(heartbeat: real, ttl: real)
    requires heartbeat > 0.0 && ttl > 0.0
    ensures heartbeat < ttl <==>
              exists delta, lambda :: delta > 0.0 && lambda > 0.0 && AlwaysSafe(Timing(ttl, delta, heartbeat, lambda))
  {
    if heartbeat < ttl {
      var d := (ttl - heartbeat) / 3.0;
      SafeIffLongEnough(Timing(ttl, d, heartbeat, d));
      assert d > 0.0 && AlwaysSafe(Timing(ttl, d, heartbeat, d));
    }
    forall delta, lambda | delta > 0.0 && lambda > 0.0 && AlwaysSafe(Timing(ttl, delta, heartbeat, lambda))
      ensures heartbeat < ttl
    {
      SafeIffLongEnough(Timing(ttl, delta, heartbeat, lambda));
    }
  }

  /** The check does not cover a missed beat, as its documentation has it: with one beat in two lost, every heartbeat of
      at least half the ttl passes the check and allows two live handlers, whatever the delays. */
  lemma MissedBeat(heartbeat: real, ttl: real, delta: real, lambda: real)
    requires ttl / 2.0 <= heartbeat < ttl && ttl > 0.0 && delta >= 0.0 && lambda >= 0.0
    ensures !AlwaysSafe(Timing(ttl, delta, heartbeat + heartbeat, lambda))
  {
    SafeIffLongEnough(Timing(ttl, delta, heartbeat + heartbeat, lambda));
  }
}
