/** `aacquire`: ask, sleep and ask again for at most a minute, and count the outcome. */
module RateLimiterClient {
  import opened Arithmetic
  import opened Options

  /** What one round trip to Redis yields; `retryAfter` is set by the token-bucket script only. */
  datatype Outcome = Checked(allowed: bool, retryAfter: Option<nat>) | RedisFailure

  /** The outcome of the n-th round trip, and the seconds since the call began when it is looked at. */
  datatype World = World(outcome: nat -> Outcome, elapsed: nat -> real)

  /** `min(retry_after or 1/rate, 1.0)`. */
  function SleepTime(rate: real, outcome: Outcome): real
    requires rate > 0.0 && outcome.Checked?
  {
    match outcome.retryAfter
    case Some(n) => Min(if n != 0 then n as real else 1.0 / rate, 1.0)
    case None => Min(1.0 / rate, 1.0)
  }

  /** A second after a denial that names whole seconds to wait; else the time in which one request's worth
      comes back, but no more than a second. */
  lemma SleepMeans(rate: real, outcome: Outcome)
    requires rate > 0.0 && outcome.Checked?
    ensures var (s, named) := (SleepTime(rate, outcome), outcome.retryAfter.Some? && outcome.retryAfter.value >= 1);
            && (s == 1.0 <==> named || rate <= 1.0)
            && (s != 1.0 ==> s * rate == 1.0)
  {
    QuotientBound(1.0, rate, 1.0);
    if rate > 1.0 && 1.0 / rate >= 1.0 { RealMulMono(1.0, 1.0 / rate, rate); }
  }

  /** The clock moves on at least by what was slept. */
  ghost predicate ClockMoves(rate: real, world: World)
    requires rate > 0.0
  {
    && world.elapsed(0) >= 0.0
    && forall n: nat :: world.outcome(n).Checked? && !world.outcome(n).allowed
                        ==> world.elapsed(n + 1) >= world.elapsed(n) + SleepTime(rate, world.outcome(n))
  }

  ghost predicate Denied(world: World, n: nat) {
    world.outcome(n).Checked? && !world.outcome(n).allowed
  }

  const MAX_WAIT: real := 60.0

  /** The shortest sleep a limiter of this rate takes. */
  function ShortestSleep(rate: real): real
    requires rate > 0.0
  {
    Min(1.0, 1.0 / rate)
  }

  lemma SleepIsBounded(rate: real, outcome: Outcome)
    requires rate > 0.0 && outcome.Checked?
    ensures 0.0 < ShortestSleep(rate) <= SleepTime(rate, outcome) <= 1.0
    ensures ShortestSleep(rate) * Max(1.0, rate) == 1.0
  {
    QuotientBound(1.0, rate, 0.0);
    QuotientBound(1.0, rate, 1.0);
  }

  /** The least time that `n` sleeps take, and the most sleeps that a call can take. */
  function Slept(rate: real, n: nat): real
    requires rate > 0.0
  {
    n as real * ShortestSleep(rate)
  }

  function MostSleeps(rate: real): int {
    (MAX_WAIT * Max(1.0, rate)).Floor
  }

  lemma SleptOnceMore(rate: real, n: nat)
    requires rate > 0.0
    ensures Slept(rate, n + 1) == Slept(rate, n) + ShortestSleep(rate)
  {
    var s := ShortestSleep(rate);
    assert (n + 1) as real * s == n as real * s + s;
  }

  lemma FitsInMinute(t: real, s: real, m: real)
    requires s * m == 1.0 && m > 0.0 && t * s <= MAX_WAIT
    ensures t <= MAX_WAIT * m
  {
    RealMulMono(t * s, MAX_WAIT, m);
    assert t * s * m == t * (s * m);
  }

  lemma FewSleeps(rate: real, n: nat)
    requires rate > 0.0 && Slept(rate, n) <= MAX_WAIT
    ensures n <= MostSleeps(rate)
  {
    SleepIsBounded(rate, Checked(false, None));
    FitsInMinute(n as real, ShortestSleep(rate), Max(1.0, rate));
  }

  /** Sleeping once more keeps the count of sleeps below the elapsed time, and within the minute. */
  lemma SleepOnce(rate: real, world: World, n: nat)
    requires rate > 0.0 && ClockMoves(rate, world) && Denied(world, n) && Slept(rate, n) <= world.elapsed(n)
    requires world.elapsed(n) + SleepTime(rate, world.outcome(n)) <= MAX_WAIT
    ensures Slept(rate, n + 1) <= world.elapsed(n + 1)
    ensures n + 1 <= MostSleeps(rate)
  {
    SleepIsBounded(rate, world.outcome(n));
    SleptOnceMore(rate, n);
    FewSleeps(rate, n + 1);
  }

  class Limiter {
    const rate: real
    const failOpen: bool
    const metricsOn: bool
    var allowed: nat
    var denied: nat
    var errors: nat

    constructor (rate: real, failOpen: bool, metricsOn: bool)
      requires rate > 0.0
      ensures this.rate == rate && this.failOpen == failOpen && this.metricsOn == metricsOn
      ensures allowed == denied == errors == 0
    {
      this.rate, this.failOpen, this.metricsOn := rate, failOpen, metricsOn;
      allowed, denied, errors := 0, 0, 0;
    }

    /** All round trips but the last are denials, so a call consumes at most one admission; the last
        one decides.  A call gives up exactly when it may not wait or the next sleep would pass the
        minute, makes at most `60 * max(1, rate) + 1` round trips, and with metrics on counts in
        exactly one of the three counters. */
    method AAcquire(blocking: bool, world: World) returns (ok: bool, trips: nat)
      requires rate > 0.0 && ClockMoves(rate, world)
      modifies this`allowed, this`denied, this`errors
      ensures trips >= 1
      ensures forall n :: 0 <= n < trips - 1 ==> Denied(world, n)
      ensures var last := world.outcome(trips - 1);
              ok <==> if last.Checked? then last.allowed else failOpen
      ensures Denied(world, trips - 1) ==>
                !blocking || world.elapsed(trips - 1) + SleepTime(rate, world.outcome(trips - 1)) > MAX_WAIT
      ensures !blocking ==> trips == 1
      ensures trips - 1 <= MostSleeps(rate)
      ensures metricsOn || allowed + denied + errors == old(allowed + denied + errors)
      ensures metricsOn ==>
                match world.outcome(trips - 1)
                case Checked(true, _) => allowed == old(allowed) + 1 && denied == old(denied) && errors == old(errors)
                case Checked(false, _) => denied == old(denied) + 1 && allowed == old(allowed) && errors == old(errors)
                case RedisFailure => errors == old(errors) + 1 && allowed == old(allowed) && denied == old(denied)
    {
      var maxWait := if blocking then MAX_WAIT else 0.0;
      trips := 0;
      while true
        invariant forall n :: 0 <= n < trips ==> Denied(world, n)
        invariant !blocking ==> trips == 0
        invariant Slept(rate, trips) <= world.elapsed(trips)
        invariant trips <= MostSleeps(rate)
        invariant allowed == old(allowed) && denied == old(denied) && errors == old(errors)
        decreases MostSleeps(rate) - trips
      {
        var now := world.elapsed(trips);
        var outcome := world.outcome(trips);
        trips := trips + 1;
        if outcome.RedisFailure? {
          if metricsOn { errors := errors + 1; }
          return failOpen, trips;
        }
        if outcome.allowed {
          if metricsOn { allowed := allowed + 1; }
          return true, trips;
        }
        if !blocking {
          if metricsOn { denied := denied + 1; }
          return false, trips;
        }
        var sleepTime := SleepTime(rate, outcome);
        if now + sleepTime > maxWait {
          if metricsOn { denied := denied + 1; }
          return false, trips;
        }
        SleepOnce(rate, world, trips - 1);
      }
    }
  }
}
