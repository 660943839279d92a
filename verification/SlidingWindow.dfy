/** The sliding-window script: a counter per window and a weighted look at the window before.

    The clock is exact and shared with Redis; times are not negative.  The script sees whole seconds,
    `int(now)`; the counters expire on the exact clock. */
module SlidingWindow {
  import opened Admission
  import opened Arithmetic

  type Time = t: real | 0.0 <= t

  /** `size` is `window_size` in seconds, `limit` is `int(rate * window_size)`. */
  datatype Config = Config(size: int, limit: int)

  datatype Counter = Counter(count: nat, expiresAt: real)

  /** The counters of one identifier by window number: window `k` has the key `...:<k * size>`. */
  type Keys = map<int, Counter>

  datatype Reply = Allowed(remaining: int, resetAt: int) | Denied(remaining: int, resetAt: int)

  // ---- The constructor's arithmetic ----

  function WindowSize(rate: real): int
    requires rate > 0.0
  {
    Max(1.0, 60.0 / rate).Floor
  }

  function Limit(rate: real): int
    requires rate > 0.0
  {
    (rate * WindowSize(rate) as real).Floor
  }

  /** The limit never exceeds the rate, loses less than one request a window, and is at least 30
      requests a window however small the rate is. */
  lemma LimitBounds(rate: real)
    requires rate > 0.0
    ensures WindowSize(rate) >= 1
    ensures rate * WindowSize(rate) as real - 1.0 < Limit(rate) as real <= rate * WindowSize(rate) as real
    ensures Limit(rate) >= 30
  {
    var w, q := WindowSize(rate) as real, 60.0 / rate;
    QuotientBound(60.0, rate, 2.0);
    if rate <= 30.0 {
      RealMulMono(q - 1.0, w, rate);
      assert (q - 1.0) * rate == q * rate - rate;
    } else {
      RealMulMono(1.0, w, rate);
    }
  }

  /** Up to 60 requests a second the window is the longest of whole seconds with at most 60 requests at the
      rate; above that it is one second. */
  lemma WindowIsLongest(rate: real)
    requires rate > 0.0
    ensures rate <= 60.0 ==> WindowSize(rate) as real * rate <= 60.0 < WindowSize(rate) as real * rate + rate
    ensures rate >= 60.0 ==> WindowSize(rate) == 1
  {
    WholeQuotient(60.0 / rate, WindowSize(rate));
    assert 60.0 / rate * rate == 60.0 by { QuotientBound(60.0, rate, 0.0); }
    LongestFor(rate, 60.0 / rate, WindowSize(rate) as real);
  }

  lemma WholeQuotient(q: real, w: int)
    requires w == Max(1.0, q).Floor
    ensures q >= 1.0 ==> w as real <= q < w as real + 1.0
    ensures q <= 1.0 ==> w == 1
  {
  }

  lemma LongestFor(rate: real, q: real, w: real)
    requires rate > 0.0 && q * rate == 60.0
    requires q >= 1.0 ==> w <= q < w + 1.0
    requires q <= 1.0 ==> w == 1.0
    ensures rate <= 60.0 ==> w * rate <= 60.0 < w * rate + rate
    ensures rate >= 60.0 ==> w == 1.0
  {
    SideOfOne(rate, q, 60.0);
    if q >= 1.0 { ProductBetween(rate, w, q, 60.0); }
  }

  lemma SideOfOne(rate: real, q: real, product: real)
    requires rate > 0.0 && q * rate == product
    ensures q < 1.0 ==> product < rate
    ensures q > 1.0 ==> product > rate
  {
    if q < 1.0 { RealMulStrict(q, 1.0, rate); }
    if q > 1.0 { RealMulStrict(1.0, q, rate); }
  }

  lemma ProductBetween(rate: real, w: real, q: real, product: real)
    requires rate > 0.0 && q * rate == product && w <= q < w + 1.0
    ensures w * rate <= product < w * rate + rate
  {
    var d := q - w;
    RealMulMono(0.0, d, rate);
    RealMulStrict(d, 1.0, rate);
    ProductOfSum(w, d, q, rate);
    SumBetween(w * rate, d * rate, product, rate);
  }

  lemma SumBetween(a: real, b: real, sum: real, more: real)
    requires sum == a + b && 0.0 <= b < more
    ensures a <= sum < a + more
  {
  }

  lemma ProductOfSum(a: real, b: real, sum: real, c: real)
    requires sum == a + b
    ensures sum * c == a * c + b * c
  {
  }

  /** The window is one second exactly for rates above 30. */
  lemma OneSecondWindowExactly(rate: real)
    requires rate > 0.0
    ensures WindowSize(rate) == 1 <==> rate > 30.0
  {
    QuotientBound(60.0, rate, 2.0);
    RealMulMono(2.0, if 60.0 / rate < 2.0 then 2.0 else 60.0 / rate, rate);
  }

  // ---- The script ----

  function WindowOf(cfg: Config, t: Time): int
    requires cfg.size > 0
  {
    t.Floor / cfg.size
  }

  function Elapsed(cfg: Config, t: Time): (e: int)
    requires cfg.size > 0
    ensures 0 <= e < cfg.size
  {
    t.Floor % cfg.size
  }

  function Get(keys: Keys, k: int, t: Time): nat {
    if k in keys && t < keys[k].expiresAt then keys[k].count else 0
  }

  /** The weighted count against the limit, in whole numbers: both sides times the window size. */
  predicate Full(cfg: Config, current: nat, previous: nat, elapsed: int) {
    current * cfg.size + previous * (cfg.size - elapsed) >= cfg.limit * cfg.size
  }

  function Weighted(cfg: Config, current: nat, previous: nat, elapsed: int): real
    requires cfg.size > 0
  {
    current as real + previous as real * Max(0.0, 1.0 - elapsed as real / cfg.size as real)
  }

  function Check(cfg: Config, keys: Keys, t: Time): (bool, Keys)
    requires cfg.size > 0
  {
    var k := WindowOf(cfg, t);
    var current := Get(keys, k, t);
    if Full(cfg, current, Get(keys, k - 1, t), Elapsed(cfg, t)) then (false, keys)
    else (true, keys[k := Counter(current + 1, t + (2 * cfg.size) as real)])
  }

  lemma WeightedScaled(current: real, previous: real, elapsed: real, size: real, limit: real)
    requires size > 0.0 && 0.0 <= elapsed < size
    ensures current + previous * Max(0.0, 1.0 - elapsed / size) >= limit
            <==> current * size + previous * (size - elapsed) >= limit * size
  {
    QuotientBound(elapsed, size, 1.0);
    var weight := 1.0 - elapsed / size;
    assert weight * size == size - elapsed;
    var weighted := current + previous * weight;
    assert weighted * size == current * size + previous * (weight * size);
    if weighted >= limit { RealMulMono(limit, weighted, size); } else { assert (limit - weighted) * size > 0.0; }
  }

  lemma WeightedAgainstLimit(cfg: Config, current: nat, previous: nat, elapsed: int)
    requires cfg.size > 0 && 0 <= elapsed < cfg.size
    ensures Weighted(cfg, current, previous, elapsed) >= cfg.limit as real <==> Full(cfg, current, previous, elapsed)
  {
    WeightedScaled(current as real, previous as real, elapsed as real, cfg.size as real, cfg.limit as real);
    RealProduct(current, cfg.size);
    RealProduct(previous, cfg.size - elapsed);
    RealProduct(cfg.limit, cfg.size);
  }

  lemma RealProduct(a: int, b: int)
    ensures (a * b) as real == a as real * b as real
  {
  }

  /** The counters of one identifier, changed in place by each run of the script. */
  class WindowKeys {
    var keys: Keys

    constructor ()
      ensures keys == map[]
    {
      keys := map[];
    }

    method Eval(cfg: Config, t: Time) returns (reply: Reply)
      requires cfg.size > 0
      modifies this
      ensures (reply.Allowed?, keys) == Check(cfg, old(keys), t)
      ensures reply.resetAt == (WindowOf(cfg, t) + 1) * cfg.size
      ensures reply.remaining == RemainingAfter(cfg, WeightedCount(cfg, old(keys), t), reply.Allowed?)
    {
      var now := t.Floor;
      var windowStart := now / cfg.size * cfg.size;
      Quotient(now, cfg.size, now / cfg.size);
      var elapsed := now - windowStart;
      var current := Get(keys, WindowOf(cfg, t), t);
      var previous := Get(keys, WindowOf(cfg, t) - 1, t);
      var weighted := Weighted(cfg, current, previous, elapsed);
      WeightedAgainstLimit(cfg, current, previous, elapsed);
      if weighted >= cfg.limit as real {
        reply := Denied(Max(0.0, cfg.limit as real - weighted).Floor, windowStart + cfg.size);
        return;
      }
      keys := keys[WindowOf(cfg, t) := Counter(current + 1, t + (2 * cfg.size) as real)];
      reply := Allowed((cfg.limit as real - weighted - 1.0).Floor, windowStart + cfg.size);
    }
  }

  /** The weighted count that a request at `t` finds. */
  function WeightedCount(cfg: Config, keys: Keys, t: Time): real
    requires cfg.size > 0
  {
    Weighted(cfg, Get(keys, WindowOf(cfg, t), t), Get(keys, WindowOf(cfg, t) - 1, t), Elapsed(cfg, t))
  }

  /** The `remaining` of a reply: nothing after a denial, else the whole requests below the limit. */
  function RemainingAfter(cfg: Config, weighted: real, allowed: bool): int {
    if allowed then (cfg.limit as real - weighted).Floor - 1 else 0
  }

  /** The reset is within one window after the request, and an admitted request can be told that -1
      requests remain: exactly when the weighted count was less than one below the limit. */
  lemma ReplyMeans(cfg: Config, keys: Keys, t: Time)
    requires cfg.size > 0
    ensures t < ((WindowOf(cfg, t) + 1) * cfg.size) as real <= t + cfg.size as real
    ensures var remaining := RemainingAfter(cfg, WeightedCount(cfg, keys, t), Check(cfg, keys, t).0);
            && remaining >= -1
            && (remaining == -1 <==> Check(cfg, keys, t).0 && WeightedCount(cfg, keys, t) > cfg.limit as real - 1.0)
  {
    Quotient(t.Floor, cfg.size, WindowOf(cfg, t));
    assert (WindowOf(cfg, t) + 1) * cfg.size == WindowOf(cfg, t) * cfg.size + cfg.size;
    WeightedAgainstLimit(cfg, Get(keys, WindowOf(cfg, t), t), Get(keys, WindowOf(cfg, t) - 1, t), Elapsed(cfg, t));
  }

  // ---- What `remaining` promises ----

  lemma AdmissionAddsOne(cfg: Config, keys: Keys, t: Time)
    requires cfg.size > 0 && Check(cfg, keys, t).0
    ensures WeightedCount(cfg, Check(cfg, keys, t).1, t) == WeightedCount(cfg, keys, t) + 1.0
  {
    var k, after := WindowOf(cfg, t), Check(cfg, keys, t).1;
    assert Get(after, k, t) == Get(keys, k, t) + 1 && Get(after, k - 1, t) == Get(keys, k - 1, t);
  }

  /** Requests at one instant are admitted as long as each finds a weighted count below the limit. */
  lemma {:induction false} AllAtOnceExactly(cfg: Config, keys: Keys, n: nat, t: Time)
    requires cfg.size > 0
    ensures CountTrue(Decisions(Step(cfg), keys, Repeat(n, t))) == n
            <==> n == 0 || WeightedCount(cfg, keys, t) + (n - 1) as real < cfg.limit as real
    decreases n
  {
    if n > 0 {
      var (ok, after) := Check(cfg, keys, t);
      assert ok <==> WeightedCount(cfg, keys, t) < cfg.limit as real by {
        var k := WindowOf(cfg, t);
        WeightedAgainstLimit(cfg, Get(keys, k, t), Get(keys, k - 1, t), Elapsed(cfg, t));
      }
      var rest: seq<Time> := Repeat((n - 1) as nat, t);
      assert Repeat(n, t)[1..] == rest;
      assert Decisions(Step(cfg), keys, Repeat(n, t)) == [ok] + Decisions(Step(cfg), after, rest);
      AllAtOnceExactly(cfg, after, n - 1, t);
      CountTrueBound(Decisions(Step(cfg), after, rest));
      if ok { AdmissionAddsOne(cfg, keys, t); }
    }
  }

  /** After an admission the same instant admits as many requests as the reply says remain, and one more
      exactly when the weighted count is not whole. */
  lemma RemainingIsExactForWholeCounts(cfg: Config, keys: Keys, t: Time, n: nat)
    requires cfg.size > 0 && Check(cfg, keys, t).0
    ensures var weighted := WeightedCount(cfg, keys, t);
            var remaining := RemainingAfter(cfg, weighted, true);
            CountTrue(Decisions(Step(cfg), Check(cfg, keys, t).1, Repeat(n, t))) == n
            <==> n == 0 || n <= remaining + (if weighted.Floor as real == weighted then 0 else 1)
  {
    AdmissionAddsOne(cfg, keys, t);
    AllAtOnceExactly(cfg, Check(cfg, keys, t).1, n, t);
    WholeBelow(cfg.limit, WeightedCount(cfg, keys, t), n);
  }

  lemma WholeBelow(limit: int, weighted: real, n: nat)
    ensures weighted + n as real < limit as real
            <==> n <= (limit as real - weighted).Floor - (if weighted.Floor as real == weighted then 1 else 0)
  {
    var whole := weighted.Floor as real == weighted;
    FloorIs(limit as real - weighted, if whole then limit - weighted.Floor else limit - weighted.Floor - 1);
    assert whole ==> weighted + n as real == (weighted.Floor + n) as real;
  }

  lemma FloorIs(x: real, n: int)
    requires n as real <= x < (n + 1) as real
    ensures x.Floor == n
  {
  }

  // ---- Runs, and the log of admissions they leave ----

  function Step(cfg: Config): (Keys, Time) -> (bool, Keys)
    requires cfg.size > 0
  {
    (keys: Keys, t: Time) => Check(cfg, keys, t)
  }

  /** The requests admitted in a run from any keys. */
  function AdmittedFrom(cfg: Config, keys: Keys, times: seq<Time>): seq<Time>
    requires cfg.size > 0
  {
    Keep(times, Decisions(Step(cfg), keys, times))
  }

  /** The times admitted in a run that starts with no counters. */
  function Admitted(cfg: Config, times: seq<Time>): seq<Time>
    requires cfg.size > 0
  {
    AdmittedFrom(cfg, map[], times)
  }

  ghost predicate Monotone(times: seq<Time>) {
    forall i, j :: 0 <= i < j < |times| ==> times[i] <= times[j]
  }

  /** Entries of the log in window `k`, at or after `from` and before `to`. */
  function Count(cfg: Config, log: seq<Time>, k: int, from: real, to: real): nat
    requires cfg.size > 0
  {
    if log == [] then 0
    else
      var t := log[|log| - 1];
      Count(cfg, log[..|log| - 1], k, from, to) + (if WindowOf(cfg, t) == k && from <= t < to then 1 else 0)
  }

  /** Entries of the log in window `k`. */
  function InWindow(cfg: Config, log: seq<Time>, k: int): nat
    requires cfg.size > 0
  {
    if log == [] then 0
    else InWindow(cfg, log[..|log| - 1], k) + (if WindowOf(cfg, log[|log| - 1]) == k then 1 else 0)
  }

  /** What the limiter is meant to ask, put to the log itself: no keys, no expiry. */
  ghost predicate MayAdmit(cfg: Config, log: seq<Time>, t: Time)
    requires cfg.size > 0
  {
    var k := WindowOf(cfg, t);
    !Full(cfg, InWindow(cfg, log, k), InWindow(cfg, log, k - 1), Elapsed(cfg, t))
  }

  /** A log that the limiter could have produced. */
  ghost predicate Lawful(cfg: Config, log: seq<Time>)
    requires cfg.size > 0
  {
    Monotone(log) && forall i :: 0 <= i < |log| ==> MayAdmit(cfg, log[..i], log[i])
  }

  /** Each counter holds the number of log entries of its window until that window is out of reach. */
  ghost predicate KeysMatch(cfg: Config, keys: Keys, log: seq<Time>)
    requires cfg.size > 0
  {
    && (forall k :: k in keys ==> keys[k].count == InWindow(cfg, log, k)
                                  && keys[k].expiresAt >= (k * cfg.size + 2 * cfg.size) as real)
    && (forall k :: k !in keys ==> InWindow(cfg, log, k) == 0)
  }

  /** The expiry never drops a count that is still read: what GET returns is what the log says. */
  lemma GetReadsTheLog(cfg: Config, keys: Keys, log: seq<Time>, t: Time)
    requires cfg.size > 0 && KeysMatch(cfg, keys, log)
    ensures Get(keys, WindowOf(cfg, t), t) == InWindow(cfg, log, WindowOf(cfg, t))
    ensures Get(keys, WindowOf(cfg, t) - 1, t) == InWindow(cfg, log, WindowOf(cfg, t) - 1)
  {
    var k := WindowOf(cfg, t);
    Quotient(t.Floor, cfg.size, k);
    assert t < (k * cfg.size + cfg.size) as real;
    if k in keys { assert keys[k].expiresAt >= (k * cfg.size + 2 * cfg.size) as real; }
    if k - 1 in keys {
      assert keys[k - 1].expiresAt >= ((k - 1) * cfg.size + 2 * cfg.size) as real;
      assert (k - 1) * cfg.size == k * cfg.size - cfg.size;
    }
  }

  lemma InWindowAfter(cfg: Config, log: seq<Time>, t: Time, k: int)
    requires cfg.size > 0
    ensures InWindow(cfg, log + [t], k) == InWindow(cfg, log, k) + (if WindowOf(cfg, t) == k then 1 else 0)
  {
    assert (log + [t])[..|log|] == log;
  }

  lemma CheckKeepsMatch(cfg: Config, keys: Keys, log: seq<Time>, t: Time)
    requires cfg.size > 0 && KeysMatch(cfg, keys, log)
    ensures Check(cfg, keys, t).0 <==> MayAdmit(cfg, log, t)
    ensures KeysMatch(cfg, Check(cfg, keys, t).1, if Check(cfg, keys, t).0 then log + [t] else log)
  {
    GetReadsTheLog(cfg, keys, log, t);
    if Check(cfg, keys, t).0 {
      Quotient(t.Floor, cfg.size, WindowOf(cfg, t));
      forall k ensures InWindow(cfg, log + [t], k) == InWindow(cfg, log, k) + (if WindowOf(cfg, t) == k then 1 else 0) {
        InWindowAfter(cfg, log, t, k);
      }
    }
  }

  lemma LawfulExtends(cfg: Config, log: seq<Time>, t: Time)
    requires cfg.size > 0 && Lawful(cfg, log) && MayAdmit(cfg, log, t)
    requires NotAfter(log, t)
    ensures Lawful(cfg, log + [t])
  {
    var log' := log + [t];
    forall i | 0 <= i < |log'| ensures MayAdmit(cfg, log'[..i], log'[i]) {
      assert log'[..i] == log[..i];
      if i == |log| { assert log[..i] == log; }
    }
  }

  lemma AdmittedFirst(cfg: Config, keys: Keys, times: seq<Time>)
    requires cfg.size > 0 && times != []
    ensures var (ok, keys') := Check(cfg, keys, times[0]);
            AdmittedFrom(cfg, keys, times) == (if ok then [times[0]] else []) + AdmittedFrom(cfg, keys', times[1..])
  {
    assert Decisions(Step(cfg), keys, times)[1..]
        == Decisions(Step(cfg), Check(cfg, keys, times[0]).1, times[1..]);
  }

  function LogAfter(cfg: Config, keys: Keys, log: seq<Time>, t: Time): seq<Time>
    requires cfg.size > 0
  {
    if Check(cfg, keys, t).0 then log + [t] else log
  }

  ghost predicate NotAfter(log: seq<Time>, t: Time) {
    log != [] ==> log[|log| - 1] <= t
  }

  lemma RequestKeepsLawful(cfg: Config, keys: Keys, log: seq<Time>, t: Time)
    requires cfg.size > 0 && KeysMatch(cfg, keys, log) && Lawful(cfg, log) && NotAfter(log, t)
    ensures KeysMatch(cfg, Check(cfg, keys, t).1, LogAfter(cfg, keys, log, t))
    ensures Lawful(cfg, LogAfter(cfg, keys, log, t))
  {
    CheckKeepsMatch(cfg, keys, log, t);
    if Check(cfg, keys, t).0 { LawfulExtends(cfg, log, t); }
  }

  lemma LogOfRun(cfg: Config, keys: Keys, log: seq<Time>, times: seq<Time>)
    requires cfg.size > 0 && times != []
    ensures log + AdmittedFrom(cfg, keys, times)
            == LogAfter(cfg, keys, log, times[0]) + AdmittedFrom(cfg, Check(cfg, keys, times[0]).1, times[1..])
  {
    AdmittedFirst(cfg, keys, times);
  }

  ghost predicate Follow(log: seq<Time>, times: seq<Time>) {
    Monotone(times) && (times != [] ==> NotAfter(log, times[0]))
  }

  lemma RestFollows(cfg: Config, keys: Keys, log: seq<Time>, times: seq<Time>)
    requires cfg.size > 0 && times != [] && Follow(log, times)
    ensures Follow(LogAfter(cfg, keys, log, times[0]), times[1..])
  {
    var rest := times[1..];
    if rest != [] { assert times[0] <= rest[0] && rest[0] == times[1]; }
  }

  lemma {:induction false} RunKeepsLawful(cfg: Config, keys: Keys, log: seq<Time>, times: seq<Time>)
    requires cfg.size > 0 && KeysMatch(cfg, keys, log) && Lawful(cfg, log) && Follow(log, times)
    ensures Lawful(cfg, log + AdmittedFrom(cfg, keys, times))
    decreases |times|
  {
    if times == [] {
      assert log + AdmittedFrom(cfg, keys, times) == log;
    } else {
      var log' := LogAfter(cfg, keys, log, times[0]);
      RequestKeepsLawful(cfg, keys, log, times[0]);
      RestFollows(cfg, keys, log, times);
      RunKeepsLawful(cfg, Check(cfg, keys, times[0]).1, log', times[1..]);
      LogOfRun(cfg, keys, log, times);
    }
  }

  /** Keys, weights and expiry implement the log-based rule: every run with a monotone clock leaves a
      lawful log. */
  lemma RunsAreLawful(cfg: Config, times: seq<Time>)
    requires cfg.size > 0 && Monotone(times)
    ensures Lawful(cfg, Admitted(cfg, times))
  {
    RunKeepsLawful(cfg, map[], [], times);
    assert [] + Admitted(cfg, times) == Admitted(cfg, times);
  }

  lemma {:induction false} LawfulRequestsPass(cfg: Config, keys: Keys, log: seq<Time>, times: seq<Time>)
    requires cfg.size > 0 && KeysMatch(cfg, keys, log) && Lawful(cfg, log + times)
    ensures AdmittedFrom(cfg, keys, times) == times
    decreases |times|
  {
    if times != [] {
      var t := times[0];
      var all := log + times;
      assert MayAdmit(cfg, log, t) by {
        assert all[..|log|] == log && all[|log|] == t;
        assert MayAdmit(cfg, all[..|log|], all[|log|]);
      }
      CheckKeepsMatch(cfg, keys, log, t);
      assert log + [t] + times[1..] == all;
      LawfulRequestsPass(cfg, Check(cfg, keys, t).1, log + [t], times[1..]);
      AdmittedFirst(cfg, keys, times);
    }
  }

  /** Conversely every lawful log is the log of a run: of the one that makes just these requests. */
  lemma LawfulLogsAreRuns(cfg: Config, log: seq<Time>)
    requires cfg.size > 0 && Lawful(cfg, log)
    ensures Admitted(cfg, log) == log
  {
    assert [] + log == log;
    LawfulRequestsPass(cfg, map[], [], log);
  }

  lemma DeniedRequestsLeaveNoTrace(cfg: Config, times: seq<Time>, mark: seq<bool>)
    requires cfg.size > 0 && |mark| == |times|
    requires forall i :: 0 <= i < |times| && !mark[i] ==> !Decisions(Step(cfg), map[], times)[i]
    ensures Decisions(Step(cfg), map[], Keep(times, mark)) == Keep(Decisions(Step(cfg), map[], times), mark)
  {
    assert DenialsKeepState(Step(cfg));
    DeniedRequestsAreInvisible(Step(cfg), map[], times, mark);
  }

  // ---- How many requests an interval gets ----

  /** Entries of the log in an interval of one window's length. */
  function InInterval(cfg: Config, log: seq<Time>, x: real): nat {
    if log == [] then 0
    else
      var t := log[|log| - 1];
      InInterval(cfg, log[..|log| - 1], x) + (if x <= t < x + cfg.size as real then 1 else 0)
  }

  /** The interval's entries in the window where it begins, and in the next one. */
  function Tail(cfg: Config, log: seq<Time>, x: Time): nat
    requires cfg.size > 0
  {
    Count(cfg, log, WindowOf(cfg, x), x, x + cfg.size as real)
  }

  function Head(cfg: Config, log: seq<Time>, x: Time): nat
    requires cfg.size > 0
  {
    Count(cfg, log, WindowOf(cfg, x) + 1, x, x + cfg.size as real)
  }

  /** How far into its window the interval begins, in whole seconds rounded up. */
  function Offset(cfg: Config, x: Time): int
    requires cfg.size > 0
  {
    Ceil(x) - WindowOf(cfg, x) * cfg.size
  }

  /** An interval of one window's length lies in two windows. */
  lemma TwoWindows(cfg: Config, x: Time, t: Time)
    requires cfg.size > 0 && x <= t < x + cfg.size as real
    ensures WindowOf(cfg, t) == WindowOf(cfg, x) || WindowOf(cfg, t) == WindowOf(cfg, x) + 1
    ensures WindowOf(cfg, t) == WindowOf(cfg, x) + 1 ==> Elapsed(cfg, t) <= Offset(cfg, x) - 1
    ensures 0 <= Offset(cfg, x) <= cfg.size
  {
    var k, size := WindowOf(cfg, x), cfg.size;
    Quotient(x.Floor, size, k);
    Quotient(t.Floor, size, k);
    Quotient(t.Floor, size, k + 1);
    assert (k + 1) * size == k * size + size && (k + 1 + 1) * size == k * size + size + size;
  }

  lemma {:induction false} IntervalSplits(cfg: Config, log: seq<Time>, x: Time)
    requires cfg.size > 0
    ensures InInterval(cfg, log, x) == Tail(cfg, log, x) + Head(cfg, log, x)
    ensures Tail(cfg, log, x) <= InWindow(cfg, log, WindowOf(cfg, x))
    decreases |log|
  {
    if log != [] {
      var t := log[|log| - 1];
      IntervalSplits(cfg, log[..|log| - 1], x);
      if x <= t < x + cfg.size as real { TwoWindows(cfg, x, t); }
    }
  }

  lemma LawfulPrefix(cfg: Config, log: seq<Time>)
    requires cfg.size > 0 && Lawful(cfg, log) && log != []
    ensures Lawful(cfg, log[..|log| - 1])
    ensures MayAdmit(cfg, log[..|log| - 1], log[|log| - 1])
  {
    var shorter := log[..|log| - 1];
    forall i | 0 <= i < |shorter| ensures MayAdmit(cfg, shorter[..i], shorter[i]) {
      assert shorter[..i] == log[..i];
    }
  }

  /** An admitted request found fewer than the limit in its window. */
  lemma NotFull(cfg: Config, current: nat, previous: nat, elapsed: int)
    requires cfg.size > 0 && 0 <= elapsed < cfg.size && !Full(cfg, current, previous, elapsed)
    ensures current < cfg.limit
  {
    MulMono(0, previous, cfg.size - elapsed);
    MulMono(cfg.limit, if current >= cfg.limit then current else cfg.limit, cfg.size);
  }

  lemma {:induction false} WindowCap(cfg: Config, log: seq<Time>, k: int)
    requires cfg.size > 0 && cfg.limit >= 0 && Lawful(cfg, log)
    ensures InWindow(cfg, log, k) <= cfg.limit
    decreases |log|
  {
    if log != [] {
      var shorter, t := log[..|log| - 1], log[|log| - 1];
      LawfulPrefix(cfg, log);
      WindowCap(cfg, shorter, k);
      if k == WindowOf(cfg, t) {
        NotFull(cfg, InWindow(cfg, shorter, k), InWindow(cfg, shorter, k - 1), Elapsed(cfg, t));
      }
    }
  }

  /** Windows come in the order of time. */
  lemma WindowsAreOrdered(cfg: Config, s: Time, t: Time)
    requires cfg.size > 0 && s <= t
    ensures WindowOf(cfg, s) <= WindowOf(cfg, t)
  {
    Quotient(s.Floor, cfg.size, 0);
    Quotient(t.Floor, cfg.size, 0);
    if WindowOf(cfg, t) < WindowOf(cfg, s) { MulMono(WindowOf(cfg, t) + 1, WindowOf(cfg, s), cfg.size); }
  }

  /** If no entry is later than `t` and `t` is before the end of the interval, all entries of the next
      window lie in the interval. */
  lemma {:induction false} HeadIsWholeWindow(cfg: Config, log: seq<Time>, x: Time, t: Time)
    requires cfg.size > 0 && t < x + cfg.size as real
    requires forall i :: 0 <= i < |log| ==> log[i] <= t
    ensures Head(cfg, log, x) == InWindow(cfg, log, WindowOf(cfg, x) + 1)
    decreases |log|
  {
    if log != [] {
      HeadIsWholeWindow(cfg, log[..|log| - 1], x, t);
      var last := log[|log| - 1];
      if last < x { WindowsAreOrdered(cfg, last, x); }
    }
  }

  lemma {:induction false} NoHeadYet(cfg: Config, log: seq<Time>, x: Time)
    requires cfg.size > 0
    requires forall i :: 0 <= i < |log| ==> WindowOf(cfg, log[i]) <= WindowOf(cfg, x)
    ensures Head(cfg, log, x) == 0
    decreases |log|
  {
    if log != [] { NoHeadYet(cfg, log[..|log| - 1], x); }
  }

  /** `total` requests exceed neither form of the bound. */
  ghost predicate Within(cfg: Config, total: nat, offset: int) {
    total * cfg.size < (cfg.limit + 1) * cfg.size + cfg.limit * (offset - 1)
  }

  lemma Straddle(cfg: Config, y: nat, c: nat, e: int, offset: int)
    requires cfg.size > 0 && 0 <= e <= offset - 1 && c <= cfg.limit && !Full(cfg, y, c, e)
    ensures Within(cfg, y + 1 + c, offset)
  {
    MulMono(c, cfg.limit, e);
    MulMono(e, offset - 1, cfg.limit);
  }

  /** If the interval gets anything from the next window, both windows together are bounded. */
  lemma {:induction false} HeadCap(cfg: Config, log: seq<Time>, x: Time)
    requires cfg.size > 0 && cfg.limit >= 0 && Lawful(cfg, log) && Head(cfg, log, x) > 0
    ensures Within(cfg, Head(cfg, log, x) + InWindow(cfg, log, WindowOf(cfg, x)), Offset(cfg, x))
    decreases |log|
  {
    var shorter, t, k := log[..|log| - 1], log[|log| - 1], WindowOf(cfg, x);
    LawfulPrefix(cfg, log);
    if WindowOf(cfg, t) == k + 1 && x <= t < x + cfg.size as real {
      TwoWindows(cfg, x, t);
      HeadIsWholeWindow(cfg, shorter, x, t);
      WindowCap(cfg, shorter, k);
      Straddle(cfg, Head(cfg, shorter, x), InWindow(cfg, shorter, k), Elapsed(cfg, t), Offset(cfg, x));
    } else {
      if WindowOf(cfg, t) == k {
        forall i | 0 <= i < |shorter| ensures WindowOf(cfg, shorter[i]) <= k { WindowsAreOrdered(cfg, shorter[i], t); }
        NoHeadYet(cfg, shorter, x);
      }
      HeadCap(cfg, shorter, x);
    }
  }

  /** What any interval of one window's length gets: at most the limit if nothing falls into the next
      window, else less than `limit + 1 + limit * (offset - 1) / size`; never more than twice the limit. */
  lemma IntervalBound(cfg: Config, times: seq<Time>, x: Time)
    requires cfg.size > 0 && cfg.limit >= 0 && Monotone(times)
    ensures var log := Admitted(cfg, times);
            && (Head(cfg, log, x) == 0 ==> InInterval(cfg, log, x) <= cfg.limit)
            && (Head(cfg, log, x) > 0 ==> Within(cfg, InInterval(cfg, log, x), Offset(cfg, x)))
            && InInterval(cfg, log, x) <= 2 * cfg.limit
  {
    RunsAreLawful(cfg, times);
    var log := Admitted(cfg, times);
    IntervalSplits(cfg, log, x);
    WindowCap(cfg, log, WindowOf(cfg, x));
    if Head(cfg, log, x) > 0 {
      HeadCap(cfg, log, x);
      WithinIsMonotone(cfg, InInterval(cfg, log, x), Head(cfg, log, x) + InWindow(cfg, log, WindowOf(cfg, x)), Offset(cfg, x));
      TwoWindows(cfg, x, x);
      TwiceTheLimit(cfg, InInterval(cfg, log, x), Offset(cfg, x));
    }
  }

  lemma WithinIsMonotone(cfg: Config, total: nat, more: nat, offset: int)
    requires cfg.size > 0 && total <= more && Within(cfg, more, offset)
    ensures Within(cfg, total, offset)
  {
    MulMono(total, more, cfg.size);
  }

  lemma TwiceTheLimit(cfg: Config, total: nat, offset: int)
    requires cfg.size > 0 && cfg.limit >= 0 && offset <= cfg.size && Within(cfg, total, offset)
    ensures total <= 2 * cfg.limit
  {
    MulMono(offset - 1, cfg.size, cfg.limit);
    if total > 2 * cfg.limit { MulMono(2 * cfg.limit + 1, total, cfg.size); }
  }

  // ---- The bound is attained ----

  lemma {:induction false} CountRepeat(cfg: Config, log: seq<Time>, n: nat, t: Time, k: int, x: real)
    requires cfg.size > 0
    ensures InWindow(cfg, log + Repeat<Time>(n, t), k) == InWindow(cfg, log, k) + (if WindowOf(cfg, t) == k then n else 0)
    ensures InInterval(cfg, log + Repeat<Time>(n, t), x)
            == InInterval(cfg, log, x) + (if x <= t < x + cfg.size as real then n else 0)
    decreases n
  {
    var all := log + Repeat<Time>(n, t);
    if n == 0 {
      assert all == log;
    } else {
      assert all[..|all| - 1] == log + Repeat<Time>(n - 1, t);
      CountRepeat(cfg, log, n - 1, t, k, x);
    }
  }

  /** Room for one more request after `n` further ones at the same instant. */
  ghost predicate Room(cfg: Config, log: seq<Time>, n: nat, t: Time)
    requires cfg.size > 0
  {
    !Full(cfg, InWindow(cfg, log, WindowOf(cfg, t)) + n, InWindow(cfg, log, WindowOf(cfg, t) - 1), Elapsed(cfg, t))
  }

  lemma MayRepeat(cfg: Config, log: seq<Time>, n: nat, t: Time)
    requires cfg.size > 0 && Room(cfg, log, n, t)
    ensures MayAdmit(cfg, log + Repeat<Time>(n, t), t)
    ensures n > 0 ==> Room(cfg, log, n - 1, t)
  {
    CountRepeat(cfg, log, n, t, WindowOf(cfg, t), 0.0);
    CountRepeat(cfg, log, n, t, WindowOf(cfg, t) - 1, 0.0);
    if n > 0 {
      FullIsMonotone(cfg, InWindow(cfg, log, WindowOf(cfg, t)) + n, InWindow(cfg, log, WindowOf(cfg, t) - 1), Elapsed(cfg, t));
    }
  }

  /** Further requests at one instant pass while the weighted count stays below the limit. */
  lemma {:induction false} RepeatIsLawful(cfg: Config, log: seq<Time>, n: nat, t: Time)
    requires cfg.size > 0 && Lawful(cfg, log) && NotAfter(log, t)
    requires Room(cfg, log, n, t)
    ensures Lawful(cfg, log + Repeat<Time>(n + 1, t))
    decreases n
  {
    MayRepeat(cfg, log, n, t);
    if n == 0 {
      assert log + Repeat<Time>(0, t) == log;
    } else {
      RepeatIsLawful(cfg, log, n - 1, t);
    }
    LawfulExtends(cfg, log + Repeat<Time>(n, t), t);
    assert log + Repeat<Time>(n + 1, t) == log + Repeat<Time>(n, t) + [t];
  }

  lemma FullIsMonotone(cfg: Config, current: nat, previous: nat, elapsed: int)
    requires cfg.size > 0 && current > 0 && !Full(cfg, current, previous, elapsed)
    ensures !Full(cfg, current - 1, previous, elapsed)
  {
    MulMono(current - 1, current, cfg.size);
  }

  /** The most requests that fit after a full window: `ceil(limit * (offset - 1) / size)`. */
  function Overflow(cfg: Config, offset: int): int
    requires cfg.size > 0
  {
    (cfg.limit * (offset - 1) - 1) / cfg.size + 1
  }

  lemma OverflowIsLargest(cfg: Config, offset: int)
    requires cfg.size > 0 && cfg.limit > 0 && 2 <= offset
    ensures Overflow(cfg, offset) >= 1
    ensures (Overflow(cfg, offset) - 1) * cfg.size < cfg.limit * (offset - 1) <= Overflow(cfg, offset) * cfg.size
  {
    MulMono(1, offset - 1, cfg.limit);
    Quotient(cfg.limit * (offset - 1) - 1, cfg.size, 0);
  }

  lemma OverflowFits(cfg: Config, offset: int)
    requires cfg.size > 0 && cfg.limit > 0 && 2 <= offset
    ensures Overflow(cfg, offset) >= 1 && !Full(cfg, Overflow(cfg, offset) - 1, cfg.limit, offset - 1)
  {
    OverflowIsLargest(cfg, offset);
  }

  /** The limit at `offset - 1/2` seconds, the overflow `offset - 1` seconds into the next window. */
  function WorstCase(cfg: Config, offset: int): seq<Time>
    requires cfg.size > 0 && cfg.limit > 0 && 2 <= offset <= cfg.size
  {
    OverflowIsLargest(cfg, offset);
    Repeat<Time>(cfg.limit, offset as real - 0.5) + Repeat<Time>(Overflow(cfg, offset), (cfg.size + offset - 1) as real)
  }

  lemma WorstCaseWindows(cfg: Config, offset: int)
    requires cfg.size > 0 && 2 <= offset <= cfg.size
    ensures WindowOf(cfg, offset as real - 0.5) == 0
    ensures WindowOf(cfg, (cfg.size + offset - 1) as real) == 1
    ensures Elapsed(cfg, (cfg.size + offset - 1) as real) == offset - 1
    ensures Offset(cfg, offset as real - 0.5) == offset
  {
    var x: Time, t: Time := offset as real - 0.5, (cfg.size + offset - 1) as real;
    assert x.Floor == offset - 1 && t.Floor == cfg.size + offset - 1;
    Quotient(x.Floor, cfg.size, 0);
    Quotient(t.Floor, cfg.size, 1);
  }

  lemma FullWindowIsLawful(cfg: Config, t: Time)
    requires cfg.size > 0 && cfg.limit > 0
    ensures Lawful(cfg, Repeat<Time>(cfg.limit, t))
  {
    assert [] + Repeat<Time>(cfg.limit, t) == Repeat<Time>(cfg.limit, t);
    assert !Full(cfg, cfg.limit - 1, 0, Elapsed(cfg, t));
    RepeatIsLawful(cfg, [], cfg.limit - 1, t);
  }

  /** A full window, then requests in the next window up to the weighted limit. */
  lemma TwoBatchesAreLawful(cfg: Config, x: Time, more: nat, t: Time)
    requires cfg.size > 0 && cfg.limit > 0 && x <= t && WindowOf(cfg, t) == WindowOf(cfg, x) + 1
    requires !Full(cfg, more, cfg.limit, Elapsed(cfg, t))
    ensures Lawful(cfg, Repeat<Time>(cfg.limit, x) + Repeat<Time>(more + 1, t))
  {
    FullWindowIsLawful(cfg, x);
    RepeatInWindow(cfg, cfg.limit, x);
    RepeatIsLawful(cfg, Repeat<Time>(cfg.limit, x), more, t);
  }

  lemma RepeatInWindow(cfg: Config, n: nat, x: Time)
    requires cfg.size > 0
    ensures InWindow(cfg, Repeat<Time>(n, x), WindowOf(cfg, x)) == n
    ensures InWindow(cfg, Repeat<Time>(n, x), WindowOf(cfg, x) + 1) == 0
  {
    assert [] + Repeat<Time>(n, x) == Repeat<Time>(n, x);
    CountRepeat(cfg, [], n, x, WindowOf(cfg, x), x);
    CountRepeat(cfg, [], n, x, WindowOf(cfg, x) + 1, x);
  }

  lemma TwoBatchesInInterval(cfg: Config, a: nat, x: Time, b: nat, t: Time)
    requires cfg.size > 0 && x <= t < x + cfg.size as real
    ensures InInterval(cfg, Repeat<Time>(a, x) + Repeat<Time>(b, t), x) == a + b
  {
    assert [] + Repeat<Time>(a, x) == Repeat<Time>(a, x);
    CountRepeat(cfg, [], a, x, 0, x);
    CountRepeat(cfg, Repeat<Time>(a, x), b, t, 0, x);
  }

  /** The bound is the best possible: for every offset from 2 on some run admits `limit` requests and
      then `ceil(limit * (offset - 1) / size)` more within one window's length. */
  lemma BoundIsAttained(cfg: Config, offset: int)
    requires cfg.size > 0 && cfg.limit > 0 && 2 <= offset <= cfg.size
    ensures Monotone(WorstCase(cfg, offset))
    ensures Admitted(cfg, WorstCase(cfg, offset)) == WorstCase(cfg, offset)
    ensures InInterval(cfg, WorstCase(cfg, offset), offset as real - 0.5) == cfg.limit + Overflow(cfg, offset)
  {
    var x: Time, t: Time := offset as real - 0.5, (cfg.size + offset - 1) as real;
    assert Lawful(cfg, WorstCase(cfg, offset)) by {
      WorstCaseWindows(cfg, offset);
      OverflowFits(cfg, offset);
      TwoBatchesAreLawful(cfg, x, Overflow(cfg, offset) - 1, t);
    }
    assert InInterval(cfg, WorstCase(cfg, offset), x) == cfg.limit + Overflow(cfg, offset) by {
      OverflowFits(cfg, offset);
      TwoBatchesInInterval(cfg, cfg.limit, x, Overflow(cfg, offset), t);
    }
    LawfulLogsAreRuns(cfg, WorstCase(cfg, offset));
  }

  /** The module's description promises no double burst at a window boundary: at most `limit` requests
      in any interval of one window's length.  That holds for all runs exactly when the window is one
      second. */
  lemma NoBoundaryBurstExactly(cfg: Config)
    requires cfg.size > 0 && cfg.limit > 0
    ensures (forall times, x: Time :: Monotone(times) ==> InInterval(cfg, Admitted(cfg, times), x) <= cfg.limit)
            <==> cfg.size == 1
  {
    if cfg.size == 1 {
      forall times, x: Time | Monotone(times) ensures InInterval(cfg, Admitted(cfg, times), x) <= cfg.limit {
        OneSecondCap(cfg, times, x);
      }
    } else {
      BoundIsAttained(cfg, 2);
      OverflowIsLargest(cfg, 2);
      var x: Time := 1.5;
      assert InInterval(cfg, Admitted(cfg, WorstCase(cfg, 2)), x) > cfg.limit;
    }
  }

  lemma OneSecondCap(cfg: Config, times: seq<Time>, x: Time)
    requires cfg.size == 1 && cfg.limit > 0 && Monotone(times)
    ensures InInterval(cfg, Admitted(cfg, times), x) <= cfg.limit
  {
    IntervalBound(cfg, times, x);
    TwoWindows(cfg, x, x);
  }

  lemma DoubleIsTooMuch(cfg: Config, offset: int)
    requires cfg.size > 0 && cfg.limit > 0 && offset <= cfg.size && Within(cfg, 2 * cfg.limit, offset)
    ensures cfg.size > cfg.limit
  {
    MulMono(offset - 1, cfg.size - 1, cfg.limit);
    assert cfg.limit * (cfg.size - 1) == cfg.limit * cfg.size - cfg.limit;
    assert 2 * cfg.limit * cfg.size == cfg.limit * cfg.size + cfg.limit * cfg.size;
    assert (cfg.limit + 1) * cfg.size == cfg.limit * cfg.size + cfg.size;
  }

  lemma OverflowIsLimit(cfg: Config)
    requires 0 < cfg.limit < cfg.size
    ensures Overflow(cfg, cfg.size) == cfg.limit
  {
    var n := cfg.limit * (cfg.size - 1) - 1;
    assert cfg.limit * (cfg.size - 1) == cfg.limit * cfg.size - cfg.limit;
    assert (cfg.limit - 1) * cfg.size == cfg.limit * cfg.size - cfg.size;
    Quotient(n, cfg.size, cfg.limit - 1);
  }

  /** A double burst, twice the limit within one window's length, is possible in some run exactly when the
      window has more seconds than the limit has requests. */
  lemma DoubleBurstExactly(cfg: Config)
    requires cfg.size > 0 && cfg.limit > 0
    ensures (exists times, x: Time :: Monotone(times) && InInterval(cfg, Admitted(cfg, times), x) == 2 * cfg.limit)
            <==> cfg.size > cfg.limit
  {
    if times, x: Time :| Monotone(times) && InInterval(cfg, Admitted(cfg, times), x) == 2 * cfg.limit {
      IntervalBound(cfg, times, x);
      TwoWindows(cfg, x, x);
      DoubleIsTooMuch(cfg, Offset(cfg, x));
    }
    if cfg.size > cfg.limit {
      BoundIsAttained(cfg, cfg.size);
      OverflowIsLimit(cfg);
      var x: Time := cfg.size as real - 0.5;
      assert InInterval(cfg, Admitted(cfg, WorstCase(cfg, cfg.size)), x) == 2 * cfg.limit;
    }
  }

  // ---- When is an admitted request told that -1 requests remain? ----

  lemma {:induction false} FinalMatches(cfg: Config, keys: Keys, log: seq<Time>, times: seq<Time>)
    requires cfg.size > 0 && KeysMatch(cfg, keys, log)
    ensures KeysMatch(cfg, Final(Step(cfg), keys, times), log + AdmittedFrom(cfg, keys, times))
    decreases |times|
  {
    if times == [] {
      assert log + AdmittedFrom(cfg, keys, times) == log;
    } else {
      CheckKeepsMatch(cfg, keys, log, times[0]);
      FinalMatches(cfg, Check(cfg, keys, times[0]).1, LogAfter(cfg, keys, log, times[0]), times[1..]);
      LogOfRun(cfg, keys, log, times);
    }
  }

  /** After the run `times` a request at `t` is told that `remaining` requests remain. */
  ghost predicate Told(cfg: Config, times: seq<Time>, t: Time, remaining: int)
    requires cfg.size > 0
  {
    var keys := Final(Step(cfg), map[], times);
    Monotone(times + [t]) && RemainingAfter(cfg, WeightedCount(cfg, keys, t), Check(cfg, keys, t).0) == remaining
  }

  lemma MatchIsSeen(cfg: Config, keys: Keys, log: seq<Time>, t: Time)
    requires cfg.size > 0 && KeysMatch(cfg, keys, log)
    ensures var k := WindowOf(cfg, t);
            WeightedCount(cfg, keys, t) == Weighted(cfg, InWindow(cfg, log, k), InWindow(cfg, log, k - 1), Elapsed(cfg, t))
    ensures Check(cfg, keys, t).0 <==> MayAdmit(cfg, log, t)
  {
    GetReadsTheLog(cfg, keys, log, t);
    CheckKeepsMatch(cfg, keys, log, t);
  }

  lemma LawfulLogMatches(cfg: Config, log: seq<Time>)
    requires cfg.size > 0 && Lawful(cfg, log)
    ensures KeysMatch(cfg, Final(Step(cfg), map[], log), log)
  {
    LawfulLogsAreRuns(cfg, log);
    FinalMatches(cfg, map[], [], log);
    assert [] + Admitted(cfg, log) == log;
  }

  /** After a lawful log the request sees the log's own counts. */
  lemma LawfulLogIsSeen(cfg: Config, log: seq<Time>, t: Time)
    requires cfg.size > 0 && Lawful(cfg, log)
    ensures var keys, k := Final(Step(cfg), map[], log), WindowOf(cfg, t);
            && WeightedCount(cfg, keys, t) == Weighted(cfg, InWindow(cfg, log, k), InWindow(cfg, log, k - 1), Elapsed(cfg, t))
            && (Check(cfg, keys, t).0 <==> MayAdmit(cfg, log, t))
  {
    LawfulLogMatches(cfg, log);
    MatchIsSeen(cfg, Final(Step(cfg), map[], log), log, t);
  }

  /** One request in one window, then the limit less one, a second into the next. */
  function AlmostFull(cfg: Config): seq<Time>
    requires cfg.size >= 2 && cfg.limit >= 1
  {
    Repeat<Time>(1, 0.0) + Repeat<Time>(cfg.limit - 1, (cfg.size + 1) as real)
  }

  lemma SecondIntoTheNext(cfg: Config)
    requires cfg.size >= 2
    ensures WindowOf(cfg, 0.0) == 0 && Elapsed(cfg, 0.0) == 0
    ensures WindowOf(cfg, (cfg.size + 1) as real) == 1 && Elapsed(cfg, (cfg.size + 1) as real) == 1
  {
    var t: Time := (cfg.size + 1) as real;
    assert t.Floor == cfg.size + 1;
    Quotient(t.Floor, cfg.size, 1);
  }

  lemma AlmostFullCounts(cfg: Config)
    requires cfg.size >= 2 && cfg.limit >= 1
    ensures InWindow(cfg, AlmostFull(cfg), 1) == cfg.limit - 1 && InWindow(cfg, AlmostFull(cfg), 0) == 1
  {
    SecondIntoTheNext(cfg);
    RepeatInWindow(cfg, 1, 0.0);
    CountRepeat(cfg, Repeat<Time>(1, 0.0), cfg.limit - 1, (cfg.size + 1) as real, 1, 0.0);
    CountRepeat(cfg, Repeat<Time>(1, 0.0), cfg.limit - 1, (cfg.size + 1) as real, 0, 0.0);
  }

  lemma NotQuiteFull(cfg: Config, current: nat)
    requires cfg.size >= 2 && current < cfg.limit
    ensures !Full(cfg, current, 1, 1) && !Full(cfg, 0, 0, 0)
  {
    MulMono(current + 1, cfg.limit, cfg.size);
    assert (current + 1) * cfg.size == current * cfg.size + cfg.size;
  }

  lemma AlmostFullIsLawful(cfg: Config)
    requires cfg.size >= 2 && cfg.limit >= 1
    ensures Lawful(cfg, AlmostFull(cfg))
  {
    var first, t := Repeat<Time>(1, 0.0), (cfg.size + 1) as real;
    SecondIntoTheNext(cfg);
    NotQuiteFull(cfg, 0);
    RepeatInWindow(cfg, 1, 0.0);
    assert [] + first == first;
    RepeatIsLawful(cfg, [], 0, 0.0);
    if cfg.limit == 1 {
      assert AlmostFull(cfg) == first;
    } else {
      NotQuiteFull(cfg, cfg.limit - 2);
      RepeatIsLawful(cfg, first, cfg.limit - 2, t);
    }
  }

  lemma AlmostFullIsTold(cfg: Config)
    requires cfg.size >= 2 && cfg.limit >= 1
    ensures Told(cfg, AlmostFull(cfg), (cfg.size + 1) as real, -1)
  {
    var log, t: Time := AlmostFull(cfg), (cfg.size + 1) as real;
    AlmostFullIsLawful(cfg);
    AlmostFullCounts(cfg);
    SecondIntoTheNext(cfg);
    NotQuiteFull(cfg, cfg.limit - 1);
    LawfulLogIsSeen(cfg, log, t);
    ReplyMeans(cfg, Final(Step(cfg), map[], log), t);
    LessThanOneBelow(cfg);
  }

  lemma LessThanOneBelow(cfg: Config)
    requires cfg.size >= 2 && cfg.limit >= 1
    ensures Weighted(cfg, cfg.limit - 1, 1, 1) > cfg.limit as real - 1.0
  {
    QuotientBound(1.0, cfg.size as real, 0.5);
  }

  lemma WholeSecondsAreNotTold(cfg: Config, times: seq<Time>, t: Time)
    requires cfg.size > 0 && Told(cfg, times, t, -1)
    ensures cfg.size >= 2 && cfg.limit >= 1
  {
    var keys, k := Final(Step(cfg), map[], times), WindowOf(cfg, t);
    var current, previous, elapsed := Get(keys, k, t), Get(keys, k - 1, t), Elapsed(cfg, t);
    ReplyMeans(cfg, keys, t);
    NotFull(cfg, current, previous, elapsed);
    WeightedAgainstLimit(cfg, current, previous, elapsed);
  }

  /** Some request of some run is admitted and told that -1 requests remain, exactly for limiters that
      admit anything and whose window is longer than a second. */
  lemma MinusOneIsToldExactly(cfg: Config)
    requires cfg.size > 0
    ensures (exists times, t: Time :: Told(cfg, times, t, -1)) <==> cfg.size >= 2 && cfg.limit >= 1
  {
    if times, t: Time :| Told(cfg, times, t, -1) { WholeSecondsAreNotTold(cfg, times, t); }
    if cfg.size >= 2 && cfg.limit >= 1 { AlmostFullIsTold(cfg); }
  }
}
