/** The load generator's ramp curve: how many requests each second dispatches. */
module LoadRun {
  import opened Wrappers
  import P = Percentiles

  datatype Config = Config(ramp: nat, hold: nat, cooldown: nat, target: int, initial: int, timeoutMs: real) {
    function Seconds(): nat { ramp + hold + cooldown }
  }

  // ----- the ramp curve -----

  function Up(initial: int, target: int, frac: real): real {
    initial as real + (target - initial) as real * frac
  }

  function Down(initial: int, target: int, frac: real): real {
    target as real - (target - initial) as real * frac
  }

  function TargetRps(c: Config, t: real): real {
    if t < 0.0 then 0.0
    else if t < c.ramp as real then
      Up(c.initial, c.target, t / c.ramp as real)
    else if t < (c.ramp + c.hold) as real then c.target as real
    else if t < c.Seconds() as real then
      Down(c.initial, c.target, (t - (c.ramp + c.hold) as real) / c.cooldown as real)
    else 0.0
  }

  predicate Between(a: int, b: int, rate: real) {
    if a <= b then a as real <= rate <= b as real else b as real <= rate <= a as real
  }

  lemma Fraction(x: real, y: real)
    requires 0.0 <= x < y
    ensures 0.0 <= x / y <= 1.0
  {
  }

  lemma PhasesBetween(a: int, b: int, f: real)
    requires 0.0 <= f <= 1.0
    ensures Between(a, b, Up(a, b, f)) && Between(a, b, Down(a, b, f))
  {
    Portion((b - a) as real, f);
  }

  lemma Portion(d: real, f: real)
    requires 0.0 <= f <= 1.0
    ensures d >= 0.0 ==> 0.0 <= d * f <= d
    ensures d <= 0.0 ==> d <= d * f <= 0.0
  {
    if d >= 0.0 {
      P.Scale(d, 0.0, f);
      P.Scale(d, f, 1.0);
    } else {
      P.Scale(-d, 0.0, f);
      P.Scale(-d, f, 1.0);
    }
  }

  /** The rate stays between the initial and the target rate in every phase, is the target while holding, and is zero
      outside the run. */
  lemma RateStaysBetween(c: Config, t: real)
    ensures 0.0 <= t < c.Seconds() as real ==> Between(c.initial, c.target, TargetRps(c, t))
    ensures c.ramp as real <= t < (c.ramp + c.hold) as real ==> TargetRps(c, t) == c.target as real
    ensures t < 0.0 || t >= c.Seconds() as real ==> TargetRps(c, t) == 0.0
  {
    if 0.0 <= t < c.ramp as real {
      Fraction(t, c.ramp as real);
      PhasesBetween(c.initial, c.target, t / c.ramp as real);
    } else if (c.ramp + c.hold) as real <= t < c.Seconds() as real {
      Fraction(t - (c.ramp + c.hold) as real, c.cooldown as real);
      PhasesBetween(c.initial, c.target, (t - (c.ramp + c.hold) as real) / c.cooldown as real);
    }
  }

  lemma Part(d: real, x: real, y: real)
    requires y > 0.0
    ensures d * (x / y) * y == d * x
  {
    assert x / y * y == x;
    assert d * (x / y) * y == d * (x / y * y);
  }

  /** The ramp starts at the initial rate, in equal times it changes the rate by equal amounts, and at its end it would
      meet the target rate: what is left to the target is in proportion to the time left. */
  lemma RampIsLinear(c: Config, t: real, d: real)
    requires c.ramp > 0 && 0.0 <= t <= t + d < c.ramp as real
    ensures TargetRps(c, 0.0) == c.initial as real
    ensures (TargetRps(c, t + d) - TargetRps(c, t)) * c.ramp as real == (c.target - c.initial) as real * d
    ensures (c.target as real - TargetRps(c, t)) * c.ramp as real
            == (c.target - c.initial) as real * (c.ramp as real - t)
  {
    var rise, ramp := (c.target - c.initial) as real, c.ramp as real;
    Part(rise, 0.0, ramp);
    Part(rise, t, ramp);
    Part(rise, t + d, ramp);
    assert rise * (t + d) == rise * t + rise * d && rise * (ramp - t) == rise * ramp - rise * t;
  }

  /** The cooldown is its mirror image: it starts at the target rate and heads for the initial one. */
  lemma CooldownIsLinear(c: Config, t: real, d: real)
    requires var start, end := (c.ramp + c.hold) as real, c.Seconds() as real;
             c.cooldown > 0 && start <= t <= t + d < end
    ensures TargetRps(c, (c.ramp + c.hold) as real) == c.target as real
    ensures (TargetRps(c, t) - TargetRps(c, t + d)) * c.cooldown as real == (c.target - c.initial) as real * d
    ensures (TargetRps(c, t) - c.initial as real) * c.cooldown as real
            == (c.target - c.initial) as real * (c.Seconds() as real - t)
  {
    var rise, start, long := (c.target - c.initial) as real, (c.ramp + c.hold) as real, c.cooldown as real;
    Part(rise, 0.0, long);
    Part(rise, t - start, long);
    Part(rise, t + d - start, long);
    assert rise * (t + d - start) == rise * (t - start) + rise * d;
    assert rise * (long - (t - start)) == rise * long - rise * (t - start);
  }

  /** Rounding half to even: no integer is nearer, and of two equally near ones it is the even one. */
  function RoundEven(x: real): (n: int)
    ensures -0.5 <= n as real - x <= 0.5
    ensures n as real - x == 0.5 || n as real - x == -0.5 ==> n % 2 == 0
  {
    var f, frac := x.Floor, x - x.Floor as real;
    if frac < 0.5 then f else if frac > 0.5 then f + 1 else if f % 2 == 0 then f else f + 1
  }

  /** How many requests second `t` dispatches. */
  function PerSecond(c: Config, t: nat): (n: nat)
    ensures TargetRps(c, t as real) >= 0.0 ==> -0.5 <= n as real - TargetRps(c, t as real) <= 0.5
    ensures TargetRps(c, t as real) < 0.0 ==> n == 0
  {
    var n := RoundEven(TargetRps(c, t as real));
    if n < 0 then 0 else n
  }

  /** Requests by second. */
  type Rates = nat -> nat

  function RatesOf(c: Config): Rates {
    (t: nat) => PerSecond(c, t)
  }

  function Dispatched(per: Rates, seconds: nat): nat {
    if seconds == 0 then 0 else Dispatched(per, seconds - 1) + per(seconds - 1)
  }

  // ----- samples -----

  datatype Sample = Sample(ms: real, status: int, error: Option<string>)

  /** A sample filed under a second of the run. */
  type Filed = (nat, Sample)

  function Synthetic(c: Config): Sample {
    Sample(c.timeoutMs, 0, Some("straggler_cancelled"))
  }

  predicate FiledWithin(samples: seq<Filed>, seconds: nat) {
    forall k :: 0 <= k < |samples| ==> samples[k].0 < seconds
  }
}
