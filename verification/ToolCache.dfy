/** The in-process gateway: a memoising tool cache and its call log. */
module ToolCache {
  import opened Wrappers

  /** A tool call the way the caller writes it; `Key` is what the cache is indexed by. */
  datatype Call = Call(tool: string, arguments: string)

  datatype Logged = Logged(call: Call, cached: bool)

  /** The backend answers, or raises; `key` is the tool and the canonical form of the arguments. */
  datatype Gateway = Gateway(backend: Call -> Option<string>, key: Call -> (string, string))

  /** Calls with one key get one answer, as they do when canonical forms are injective on what the backend reads. */
  ghost predicate Faithful(g: Gateway) {
    forall a, b :: g.key(a) == g.key(b) ==> g.backend(a) == g.backend(b)
  }

  datatype Request = Request(call: Call, cache: bool)

  datatype State = State(cache: map<(string, string), string>, log: seq<Logged>, backendCalls: nat)

  const EMPTY := State(map[], [], 0)

  function Hit(g: Gateway, s: State, r: Request): bool {
    r.cache && g.key(r.call) in s.cache
  }

  function Answer(g: Gateway, s: State, r: Request): Option<string> {
    if Hit(g, s, r) then Some(s.cache[g.key(r.call)]) else g.backend(r.call)
  }

  function After(g: Gateway, s: State, r: Request): State {
    if Hit(g, s, r) then s.(log := s.log + [Logged(r.call, true)])
    else
      match g.backend(r.call)
      case None => s.(backendCalls := s.backendCalls + 1)
      case Some(res) =>
        State(if r.cache then s.cache[g.key(r.call) := res] else s.cache,
              s.log + [Logged(r.call, false)], s.backendCalls + 1)
  }

  class InProcessTools {
    const gateway: Gateway
    var cache: map<(string, string), string>
    var log: seq<Logged>
    var backendCalls: nat

    ghost function Now(): State
      reads this
    {
      State(cache, log, backendCalls)
    }

    constructor (gateway: Gateway)
      ensures this.gateway == gateway && Now() == EMPTY
    {
      this.gateway := gateway;
      cache, log, backendCalls := map[], [], 0;
    }

    /** None is an exception of the backend: nothing is cached or logged then. */
    method Invoke(call: Call, useCache: bool) returns (result: Option<string>)
      modifies this
      ensures result == Answer(gateway, old(Now()), Request(call, useCache))
      ensures Now() == After(gateway, old(Now()), Request(call, useCache))
    {
      var key := gateway.key(call);
      if useCache && key in cache {
        log := log + [Logged(call, true)];
        return Some(cache[key]);
      }
      result := gateway.backend(call);
      backendCalls := backendCalls + 1;
      if result == None { return; }
      if useCache { cache := cache[key := result.value]; }
      log := log + [Logged(call, false)];
    }
  }

  // ----- any sequence of calls -----

  function Run(g: Gateway, requests: seq<Request>): State {
    if requests == [] then EMPTY else After(g, Run(g, requests[..|requests| - 1]), requests[|requests| - 1])
  }

  /** What is cached under a key is what the backend says to any call with that key. */
  ghost predicate Sound(g: Gateway, s: State) {
    forall call :: g.key(call) in s.cache ==> g.backend(call) == Some(s.cache[g.key(call)])
  }

  lemma {:induction false} RunSound(g: Gateway, requests: seq<Request>)
    requires Faithful(g)
    ensures Sound(g, Run(g, requests))
    decreases |requests|
  {
    if requests != [] { RunSound(g, requests[..|requests| - 1]); }
  }

  /** The `i`-th call of a session gets the answer the backend would give it directly. */
  ghost predicate Transparent(g: Gateway, requests: seq<Request>, i: nat)
    requires i < |requests|
  {
    Answer(g, Run(g, requests[..i]), requests[i]) == g.backend(requests[i].call)
  }

  ghost predicate AlwaysTransparent(g: Gateway) {
    forall requests: seq<Request>, i: nat :: i < |requests| ==> Transparent(g, requests, i)
  }

  /** Caching is invisible in every session exactly when calls that share a key share their answer. */
  lemma TransparentIff(g: Gateway)
    ensures AlwaysTransparent(g) <==> Faithful(g)
  {
    if Faithful(g) {
      forall requests: seq<Request>, i: nat | i < |requests| ensures Transparent(g, requests, i) {
        RunSound(g, requests[..i]);
      }
    }
    if AlwaysTransparent(g) {
      forall a, b | g.key(a) == g.key(b) ensures g.backend(a) == g.backend(b) {
        SecondCall(g, a, b);
        SecondCall(g, b, a);
      }
    }
  }

  lemma SecondCall(g: Gateway, a: Call, b: Call)
    requires AlwaysTransparent(g) && g.key(a) == g.key(b)
    ensures g.backend(a).Some? ==> g.backend(b) == g.backend(a)
  {
    var requests := [Request(a, true), Request(b, true)];
    assert Transparent(g, requests, 1);
    assert requests[..1] == [Request(a, true)] && [Request(a, true)][..0] == [];
    assert Run(g, requests[..1]) == After(g, EMPTY, Request(a, true));
  }

  // ----- counting -----

  function Misses(log: seq<Logged>): nat {
    if log == [] then 0 else Misses(log[..|log| - 1]) + if log[|log| - 1].cached then 0 else 1
  }

  /** The keys of the calls that use the cache. */
  function Keys(g: Gateway, requests: seq<Request>): set<(string, string)> {
    if requests == [] then {}
    else
      var last := requests[|requests| - 1];
      Keys(g, requests[..|requests| - 1]) + if last.cache then {g.key(last.call)} else {}
  }

  /** The calls that do not. */
  function Uncached(requests: seq<Request>): nat {
    if requests == [] then 0 else Uncached(requests[..|requests| - 1]) + if requests[|requests| - 1].cache then 0 else 1
  }

  /** When the backend never raises: it is called once per distinct key of the calls that use the cache and once for
      every call that does not, and nothing else is cached; every call is logged, as uncached as often as the backend
      was called. */
  lemma {:induction false} BackendOncePerKey(g: Gateway, requests: seq<Request>)
    requires forall i :: 0 <= i < |requests| ==> g.backend(requests[i].call).Some?
    ensures var s := Run(g, requests);
            && s.cache.Keys == Keys(g, requests)
            && s.backendCalls == |Keys(g, requests)| + Uncached(requests) == Misses(s.log)
            && |s.log| == |requests|
    decreases |requests|
  {
    if requests != [] {
      var n := |requests| - 1;
      BackendOncePerKey(g, requests[..n]);
      OneMoreCounted(g, Run(g, requests[..n]), requests[n], Keys(g, requests[..n]), Uncached(requests[..n]));
    }
  }

  lemma OneMoreCounted(g: Gateway, s: State, r: Request, keys: set<(string, string)>, uncached: nat)
    requires g.backend(r.call).Some? && s.cache.Keys == keys && s.backendCalls == |keys| + uncached == Misses(s.log)
    ensures var s' := After(g, s, r);
            var keys' := keys + if r.cache then {g.key(r.call)} else {};
            && s'.cache.Keys == keys' && |s'.log| == |s.log| + 1
            && s'.backendCalls == |keys'| + uncached + (if r.cache then 0 else 1) == Misses(s'.log)
  {
    var s' := After(g, s, r);
    assert s'.log[..|s'.log| - 1] == s.log;
    if Hit(g, s, r) {
      assert keys + {g.key(r.call)} == keys;
    } else if !r.cache {
      assert keys + {} == keys;
    }
  }

  /** Whatever the backend does: a call that raises is neither logged nor cached, every other call is logged once, the
      backend is called for every uncached entry and for every call that raises, and a call that does not use the cache
      always goes to the backend and leaves the cache alone. */
  lemma OneCall(g: Gateway, requests: seq<Request>, r: Request)
    ensures var s, s' := Run(g, requests), Run(g, requests + [r]);
            && (Answer(g, s, r) == None ==> s'.log == s.log && s'.cache == s.cache)
            && (Answer(g, s, r).Some? ==>
                  |s'.log| == |s.log| + 1 && s'.log[..|s.log|] == s.log && s'.log[|s.log|].call == r.call)
            && (!r.cache ==> s'.backendCalls == s.backendCalls + 1 && s'.cache == s.cache)
            && (r.cache && g.key(r.call) in s.cache ==> s'.backendCalls == s.backendCalls && s'.cache == s.cache)
            && (r.cache && g.key(r.call) !in s.cache && g.backend(r.call).Some? ==>
                  s'.backendCalls == s.backendCalls + 1 && g.key(r.call) in s'.cache)
  {
    assert (requests + [r])[..|requests|] == requests;
  }

  lemma {:induction false} BackendCallsAre(g: Gateway, requests: seq<Request>)
    ensures var s := Run(g, requests); s.backendCalls == Misses(s.log) + (|requests| - |s.log|)
    decreases |requests|
  {
    if requests != [] {
      var n := |requests| - 1;
      BackendCallsAre(g, requests[..n]);
      var s, s' := Run(g, requests[..n]), Run(g, requests);
      assert s'.log != s.log ==> s'.log[..|s'.log| - 1] == s.log;
    }
  }
}
