/** The supervisor's crash-loop guard: give up when one service crashes more than three times within a minute. */
module CrashGuard {
  import opened Wrappers

  const MAX_CRASHES: nat := 3
  const WINDOW: real := 60.0

  /** The times later than `limit`, in order. */
  function Since(times: seq<real>, limit: real): seq<real> {
    if times == [] then []
    else Since(times[..|times| - 1], limit) + if times[|times| - 1] > limit then [times[|times| - 1]] else []
  }

  class Service {
    var crashes: seq<real>
    /** Every crash so far. */
    ghost var history: seq<real>

    constructor ()
      ensures crashes == [] && history == []
    {
      crashes, history := [], [];
    }

    /** The list keeps at least the crashes of the last window. */
    ghost predicate Valid()
      reads this
    {
      Kept(history, crashes)
    }

    method RecordCrash(now: real) returns (tooMany: bool)
      requires Valid() && UpTo(history, now)
      modifies this
      ensures Valid() && history == old(history) + [now] && UpTo(history, now)
      ensures crashes == Since(history, now - WINDOW)
      ensures tooMany <==> |Since(history, now - WINDOW)| > MAX_CRASHES
    {
      var left := [];
      for i := 0 to |crashes|
        modifies {}
        invariant left == Since(crashes[..i], now - WINDOW)
      {
        assert crashes[..i + 1][..i] == crashes[..i];
        if crashes[i] > now - WINDOW { left := left + [crashes[i]]; }
      }
      assert crashes[..|crashes|] == crashes;
      PrunedEnough(history, crashes, now);
      history := history + [now];
      assert history[..|history| - 1] == old(history);
      crashes := left + [now];
      tooMany := |crashes| > MAX_CRASHES;
    }
  }

  ghost predicate UpTo(times: seq<real>, now: real) {
    forall i :: 0 <= i < |times| ==> times[i] <= now
  }

  /** `kept` is the history filtered at some moment no later than its last crash. */
  ghost predicate Kept(history: seq<real>, kept: seq<real>) {
    if history == [] then kept == []
    else kept == Since(history, history[|history| - 1] - WINDOW)
  }

  lemma {:induction false} SinceTwice(times: seq<real>, a: real, b: real)
    requires a <= b
    ensures Since(Since(times, a), b) == Since(times, b)
    decreases |times|
  {
    if times != [] {
      var n := |times| - 1;
      SinceTwice(times[..n], a, b);
      var before := Since(times[..n], a);
      assert before + [] == before;
      assert (before + [times[n]])[..|before|] == before;
    }
  }

  /** Pruning the pruned list at a later moment is pruning the whole history. */
  lemma PrunedEnough(history: seq<real>, kept: seq<real>, now: real)
    requires Kept(history, kept) && UpTo(history, now)
    ensures Since(kept, now - WINDOW) == Since(history, now - WINDOW)
  {
    if history != [] { SinceTwice(history, history[|history| - 1] - WINDOW, now - WINDOW); }
  }

  // ----- the supervise loop -----

  /** One service found dead at one moment. */
  datatype Crash = Crash(service: nat, time: real)

  function CrashesOf(events: seq<Crash>, service: nat): seq<real> {
    if events == [] then []
    else
      var last := events[|events| - 1];
      CrashesOf(events[..|events| - 1], service) + if last.service == service then [last.time] else []
  }

  /** Event `k` is one crash too many for its service: more than three in the window that ends at it. */
  predicate TooMany(events: seq<Crash>, k: nat)
    requires k < |events|
  {
    |Since(CrashesOf(events[..k + 1], events[k].service), events[k].time - WINDOW)| > MAX_CRASHES
  }

  /** These are events up to `k`, in order, all crashes of the same service as event `k` less than a minute before
      it. */
  predicate Within(events: seq<Crash>, k: nat, n: nat, idx: seq<nat>)
    requires k < |events| && n <= |events|
  {
    && (forall i, j :: 0 <= i < j < |idx| ==> idx[i] < idx[j])
    && (forall i :: 0 <= i < |idx| ==> idx[i] < n && InWindow(events, k, idx[i]))
  }

  predicate InWindow(events: seq<Crash>, k: nat, i: nat)
    requires k < |events| && i < |events|
  {
    events[i].service == events[k].service && events[k].time - events[i].time < 60.0
  }

  /** The crashes in the window are as many as there are such events... */
  lemma {:induction false} WindowCrashes(events: seq<Crash>, k: nat, n: nat) returns (idx: seq<nat>)
    requires k < |events| && n <= |events|
    ensures Within(events, k, n, idx)
    ensures |idx| == |Since(CrashesOf(events[..n], events[k].service), events[k].time - WINDOW)|
  {
    idx := [];
    if n > 0 {
      idx := WindowCrashes(events, k, n - 1);
      OneCrashMore(events, k, n - 1);
      WithinLonger(events, k, n - 1, idx);
      if InWindow(events, k, n - 1) { idx := idx + [n - 1]; }
    }
  }

  lemma WithinLonger(events: seq<Crash>, k: nat, n: nat, idx: seq<nat>)
    requires k < |events| && n < |events| && Within(events, k, n, idx)
    ensures Within(events, k, n + 1, idx)
    ensures InWindow(events, k, n) ==> Within(events, k, n + 1, idx + [n])
  {
  }

  lemma OneCrashMore(events: seq<Crash>, k: nat, n: nat)
    requires k < |events| && n < |events|
    ensures |Since(CrashesOf(events[..n + 1], events[k].service), events[k].time - WINDOW)|
            == |Since(CrashesOf(events[..n], events[k].service), events[k].time - WINDOW)|
               + if InWindow(events, k, n) then 1 else 0
  {
    assert events[..n + 1][..n] == events[..n];
    var before := CrashesOf(events[..n], events[k].service);
    if events[n].service == events[k].service {
      assert (before + [events[n].time])[..|before|] == before;
    } else {
      assert before + [] == before;
    }
  }

  /** ... and there are never more. */
  lemma {:induction false} WindowAtMost(events: seq<Crash>, k: nat, n: nat, idx: seq<nat>)
    requires k < |events| && n <= |events| && Within(events, k, n, idx)
    ensures |idx| <= |Since(CrashesOf(events[..n], events[k].service), events[k].time - WINDOW)|
    decreases n
  {
    assert idx != [] ==> idx[0] < n;
    if n > 0 {
      OneCrashMore(events, k, n - 1);
      var m := |idx|;
      if m > 0 && idx[m - 1] == n - 1 {
        WindowAtMost(events, k, n - 1, idx[..m - 1]);
      } else {
        assert forall i :: 0 <= i < m ==> idx[i] <= idx[m - 1];
        WindowAtMost(events, k, n - 1, idx);
      }
    }
  }

  /** Event `k` is one crash too many exactly when four crashes of its service, itself among them, lie within less
      than a minute that ends with it. */
  lemma TooManyIff(events: seq<Crash>, k: nat)
    requires k < |events|
    ensures TooMany(events, k) <==> exists idx :: |idx| == 4 && Within(events, k, k + 1, idx)
  {
    var all := WindowCrashes(events, k, k + 1);
    if TooMany(events, k) {
      assert Within(events, k, k + 1, all[..4]) && |all[..4]| == 4;
    }
    if idx :| |idx| == 4 && Within(events, k, k + 1, idx) { WindowAtMost(events, k, k + 1, idx); }
  }

  ghost predicate Clock(events: seq<Crash>) {
    forall i, j :: 0 <= i <= j < |events| ==> events[i].time <= events[j].time
  }

  lemma {:induction false} CrashesUpTo(events: seq<Crash>, service: nat, now: real)
    requires forall i :: 0 <= i < |events| ==> events[i].time <= now
    ensures UpTo(CrashesOf(events, service), now)
    decreases |events|
  {
    if events != [] { CrashesUpTo(events[..|events| - 1], service, now); }
  }

  ghost predicate Tracks(services: seq<Service>, events: seq<Crash>)
    reads services
  {
    forall s :: 0 <= s < |services| ==> services[s].Valid() && services[s].history == CrashesOf(events, s)
  }

  /** Restarts dead services until one of them has crashed more than three times in some minute that ends at a crash:
      then, and only then, the supervisor exits with 75. */
  method Supervise(services: seq<Service>, events: seq<Crash>) returns (exitAt: Option<nat>)
    requires forall i, j :: 0 <= i < j < |services| ==> services[i] != services[j]
    requires Tracks(services, []) && Clock(events) && forall i :: 0 <= i < |events| ==> events[i].service < |services|
    modifies services
    ensures exitAt == None ==> forall k :: 0 <= k < |events| ==> !TooMany(events, k)
    ensures exitAt.Some? ==> exitAt.value < |events| && TooMany(events, exitAt.value)
                             && forall k :: 0 <= k < exitAt.value ==> !TooMany(events, k)
  {
    for i := 0 to |events|
      invariant Tracks(services, events[..i])
      invariant forall k :: 0 <= k < i ==> !TooMany(events, k)
    {
      var tooMany := Found(services, events, i);
      if tooMany { return Some(i); }
    }
    return None;
  }

  /** Records one crash with its service. */
  method Found(services: seq<Service>, events: seq<Crash>, i: nat) returns (tooMany: bool)
    requires forall i, j :: 0 <= i < j < |services| ==> services[i] != services[j]
    requires i < |events| && Tracks(services, events[..i]) && Clock(events) && events[i].service < |services|
    modifies services
    ensures Tracks(services, events[..i + 1]) && (tooMany <==> TooMany(events, i))
  {
    var e := events[i];
    ghost var seen := events[..i + 1];
    assert seen[..i] == events[..i];
    CrashesUpTo(events[..i], e.service, e.time);
    tooMany := services[e.service].RecordCrash(e.time);
  }
}
