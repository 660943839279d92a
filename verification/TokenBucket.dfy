/** The token-bucket script: lazy refill, one token a request, idle expiry after an hour.

    Arithmetic is over exact reals; Redis and the callers share one clock. */
module TokenBucket {
  import opened Admission
  import opened Arithmetic
  import opened Options

  /** `expires` tells whether the idle TTL fires; the script has it, the reference bucket does not. */
  datatype Config = Config(rate: real, burst: int, expires: bool)

  /** The hash at `<prefix>:bucket:<identifier>`. */
  datatype Bucket = Empty | Bucket(tokens: real, lastRefill: real, expiresAt: real)

  datatype Reply =
    | Allowed(remaining: int, resetAt: real)
    | Denied(remaining: int, resetAt: real, retryAfter: int)

  const IDLE_TTL: real := 3600.0

  /** `max_burst or int(requests_per_second)`. */
  function EffectiveBurst(rate: real, maxBurst: Option<int>): int {
    if maxBurst.Some? && maxBurst.value != 0 then maxBurst.value else rate.Floor
  }

  /** The refill over a span of `d` seconds. */
  function Refill(cfg: Config, d: real): real {
    d * cfg.rate
  }

  function SecondsToRefill(cfg: Config, tokens: real): int
    requires cfg.rate > 0.0
  {
    Ceil(tokens / cfg.rate)
  }

  /** What a command at time `now` finds at the key. */
  function Stored(cfg: Config, b: Bucket, now: real): Bucket {
    if cfg.expires && b.Bucket? && b.expiresAt <= now then Empty else b
  }

  /** Tokens on hand at `now`. */
  function Available(cfg: Config, b: Bucket, now: real): real {
    match Stored(cfg, b, now)
    case Empty => cfg.burst as real
    case Bucket(tokens, lastRefill, _) =>
      Min(cfg.burst as real, tokens + Refill(cfg, Max(0.0, now - lastRefill)))
  }

  function Check(cfg: Config, b: Bucket, now: real): (Reply, Bucket)
    requires cfg.rate > 0.0
  {
    var tokens := Available(cfg, b, now);
    if tokens >= 1.0 then
      var left := tokens - 1.0;
      (Allowed(left.Floor, now + SecondsToRefill(cfg, cfg.burst as real - left) as real),
       Bucket(left, now, now + IDLE_TTL))
    else
      var retryAfter := SecondsToRefill(cfg, 1.0 - tokens);
      (Denied(tokens.Floor, now + retryAfter as real, retryAfter), b)
  }

  /** The key of one identifier, changed in place by each run of the script. */
  class BucketKey {
    var bucket: Bucket

    constructor ()
      ensures bucket == Empty
    {
      bucket := Empty;
    }

    method Eval(cfg: Config, now: real) returns (reply: Reply)
      requires cfg.rate > 0.0
      modifies this
      ensures (reply, bucket) == Check(cfg, old(bucket), now)
    {
      var tokens, lastRefill;
      match Stored(cfg, bucket, now) {
        case Empty =>
          tokens, lastRefill := cfg.burst as real, now;
        case Bucket(t, l, _) =>
          var elapsed := Max(0.0, now - l);
          tokens, lastRefill := Min(cfg.burst as real, t + Refill(cfg, elapsed)), l;
      }
      if tokens >= 1.0 {
        tokens := tokens - 1.0;
        bucket := Bucket(tokens, now, now + IDLE_TTL);
        reply := Allowed(tokens.Floor, now + SecondsToRefill(cfg, cfg.burst as real - tokens) as real);
      } else {
        var retryAfter := SecondsToRefill(cfg, 1.0 - tokens);
        reply := Denied(tokens.Floor, now + retryAfter as real, retryAfter);
      }
    }
  }

  // ---- Runs ----

  function Step(cfg: Config): (Bucket, real) -> (bool, Bucket)
    requires cfg.rate > 0.0
  {
    (b, now) => (Check(cfg, b, now).0.Allowed?, Check(cfg, b, now).1)
  }

  /** The decisions on requests at the given times, starting with no key. */
  function Run(cfg: Config, times: seq<real>): (d: seq<bool>)
    requires cfg.rate > 0.0
    ensures |d| == |times|
  {
    Decisions(Step(cfg), Empty, times)
  }

  ghost predicate Monotone(times: seq<real>) {
    forall i, j :: 0 <= i < j < |times| ==> times[i] <= times[j]
  }

  ghost predicate Within(times: seq<real>, from: real, to: real) {
    from <= to && forall i :: 0 <= i < |times| ==> from <= times[i] <= to
  }

  /** What every reachable bucket satisfies at time `now`. */
  ghost predicate Sound(b: Bucket, now: real) {
    b.Bucket? ==> 0.0 <= b.tokens && b.lastRefill <= now && b.expiresAt == b.lastRefill + IDLE_TTL
  }

  /** The expiry cannot give away tokens that the refill would not have given. */
  ghost predicate ExpiryHarmless(cfg: Config) {
    !cfg.expires || Refill(cfg, IDLE_TTL) >= cfg.burst as real
  }

  lemma RefillGrows(cfg: Config, c: real, d: real)
    requires cfg.rate > 0.0 && c <= d
    ensures Refill(cfg, c) <= Refill(cfg, d)
    ensures Refill(cfg, d) == Refill(cfg, c) + Refill(cfg, d - c)
    ensures Refill(cfg, 0.0) == 0.0 <= Refill(cfg, d - c)
  {
    assert 0.0 <= (d - c) * cfg.rate;
  }

  /** Where the expiry is harmless it changes nothing that is on hand. */
  lemma ExpiryKeepsAvailable(cfg: Config, b: Bucket, now: real)
    requires cfg.rate > 0.0 && ExpiryHarmless(cfg) && Sound(b, now)
    ensures Available(cfg, b, now) == Available(cfg.(expires := false), b, now)
  {
    if cfg.expires && b.Bucket? && b.expiresAt <= now {
      RefillGrows(cfg, IDLE_TTL, now - b.lastRefill);
    }
  }

  lemma AvailableLater(cfg: Config, b: Bucket, now: real, wait: real)
    requires cfg.rate > 0.0 && ExpiryHarmless(cfg) && Sound(b, now) && wait >= 0.0
    ensures Available(cfg, b, now + wait) == Min(cfg.burst as real, Available(cfg, b, now) + Refill(cfg, wait))
  {
    var plain := cfg.(expires := false);
    calc {
      Available(cfg, b, now + wait);
    == { ExpiryKeepsAvailable(cfg, b, now + wait); }
      Available(plain, b, now + wait);
    == { PlainAvailableLater(plain, b, now, wait); }
      Min(plain.burst as real, Available(plain, b, now) + Refill(plain, wait));
    == { ExpiryKeepsAvailable(cfg, b, now); }
      Min(cfg.burst as real, Available(cfg, b, now) + Refill(cfg, wait));
    }
  }

  lemma PlainAvailableLater(cfg: Config, b: Bucket, now: real, wait: real)
    requires cfg.rate > 0.0 && !cfg.expires && Sound(b, now) && wait >= 0.0
    ensures Available(cfg, b, now + wait) == Min(cfg.burst as real, Available(cfg, b, now) + Refill(cfg, wait))
  {
    RefillGrows(cfg, 0.0, wait);
    if b.Bucket? {
      var c, d := now - b.lastRefill, now + wait - b.lastRefill;
      RefillGrows(cfg, c, d);
      assert d - c == wait;
      assert Refill(cfg, d) == Refill(cfg, c) + Refill(cfg, wait);
      MinShift(cfg.burst as real, b.tokens + Refill(cfg, c), Refill(cfg, wait));
    }
  }

  lemma MinShift(cap: real, x: real, more: real)
    requires more >= 0.0
    ensures Min(cap, x + more) == Min(cap, Min(cap, x) + more)
  {
  }

  lemma AvailableIsNonNegative(cfg: Config, b: Bucket, now: real)
    requires cfg.rate > 0.0 && cfg.burst >= 0 && Sound(b, now)
    ensures 0.0 <= Available(cfg, b, now) <= cfg.burst as real
  {
    if b.Bucket? { RefillGrows(cfg, 0.0, now - b.lastRefill); }
  }

  // ---- What the idle expiry can add ----

  /** Whole idle periods in a span. */
  function Hours(d: real): int {
    (d / IDLE_TTL).Floor
  }

  lemma HoursGrow(c: real, d: real)
    requires c <= d
    ensures Hours(c) <= Hours(d) && Hours(c + IDLE_TTL) == Hours(c) + 1
    ensures 0.0 <= c ==> 0 <= Hours(c)
  {
  }

  /** What one expiry gives beyond the refill of the idle hour before it. */
  function Bonus(cfg: Config): (bonus: real)
    ensures bonus >= 0.0
  {
    if cfg.expires then Max(0.0, cfg.burst as real - Refill(cfg, IDLE_TTL)) else 0.0
  }

  /** How often the key can expire after `from` and up to `to`. */
  function Resets(b: Bucket, from: real, to: real): int {
    if b.Bucket? && from < b.expiresAt then (if to < b.expiresAt then 0 else 1 + Hours(to - b.expiresAt))
    else Hours(to - from)
  }

  function Renewed(tokens: real, now: real): Bucket {
    Bucket(tokens, now, now + IDLE_TTL)
  }

  lemma RenewedResets(tokens: real, now: real, to: real)
    requires now <= to
    ensures Resets(Renewed(tokens, now), now, to) == Hours(to - now) >= 0
  {
    HoursGrow(to - now - IDLE_TTL, to - now);
    HoursGrow(to - now, to - now);
  }

  /** Between two looks at the key an expiry uses up one reset. */
  lemma ResetsShrink(b: Bucket, from: real, now: real, to: real)
    requires Sound(b, from) && from <= now <= to
    ensures var used := if b.Bucket? && from < b.expiresAt <= now then 1 else 0;
            Resets(b, now, to) + used <= Resets(b, from, to) && Hours(to - now) + used <= Resets(b, from, to)
  {
    HoursGrow(to - now, to - from);
    if b.Bucket? {
      HoursGrow(to - now - IDLE_TTL, to - b.expiresAt);
      if b.expiresAt <= now { HoursGrow(to - now, to - b.expiresAt); }
    }
  }

  /** What an expiry puts on hand is paid by the tokens before it, the refill and the bonus. */
  lemma ExpiryIsPaid(cfg: Config, b: Bucket, from: real, now: real)
    requires cfg.rate > 0.0 && cfg.burst >= 0 && cfg.expires && Sound(b, from)
    requires b.Bucket? && from < b.expiresAt <= now
    ensures cfg.burst as real <= Available(cfg, b, from) + Refill(cfg, now - from) + Bonus(cfg)
  {
    RefillGrows(cfg, 0.0, now - from);
    RefillGrows(cfg, from - b.lastRefill, now - b.lastRefill);
    RefillGrows(cfg, IDLE_TTL, now - b.lastRefill);
    assert now - b.lastRefill - (from - b.lastRefill) == now - from;
  }

  lemma PlainIsAlike(cfg: Config, b: Bucket, now: real, d: real)
    ensures Refill(cfg.(expires := false), d) == Refill(cfg, d)
    ensures !(cfg.expires && b.Bucket? && b.expiresAt <= now)
            ==> Available(cfg.(expires := false), b, now) == Available(cfg, b, now)
  {
  }

  lemma RefillPays(cfg: Config, b: Bucket, from: real, now: real)
    requires cfg.rate > 0.0 && cfg.burst >= 0 && Sound(b, from) && from <= now
    requires !(cfg.expires && b.Bucket? && from < b.expiresAt <= now)
    ensures Available(cfg, b, now) <= Available(cfg, b, from) + Refill(cfg, now - from)
  {
    if cfg.expires && b.Bucket? && b.expiresAt <= now {
      RefillGrows(cfg, 0.0, now - from);
    } else {
      PlainIsAlike(cfg, b, from, now - from);
      PlainIsAlike(cfg, b, now, now - from);
      PlainAvailableLater(cfg.(expires := false), b, from, now - from);
    }
  }

  /** The potential: tokens on hand, the refill to come, and a bonus for each reset to come. */
  function Potential(cfg: Config, b: Bucket, from: real, to: real): real {
    Available(cfg, b, from) + Worth(cfg, to - from, Resets(b, from, to))
  }

  /** A refill over `d` seconds and a number of bonuses. */
  function Worth(cfg: Config, d: real, resets: int): real {
    Refill(cfg, d) + Bonus(cfg) * resets as real
  }

  lemma WorthGrows(cfg: Config, c: real, m: int, d: real, n: int)
    requires cfg.rate > 0.0 && c <= d && m <= n
    ensures Worth(cfg, c, m) + Refill(cfg, d - c) + (if m < n then Bonus(cfg) else 0.0) <= Worth(cfg, d, n)
    ensures Worth(cfg, c, m) <= Worth(cfg, d, n)
  {
    RefillGrows(cfg, c, d);
    assert Bonus(cfg) * m as real + (if m < n then Bonus(cfg) else 0.0) <= Bonus(cfg) * n as real by {
      BonusGrows(Bonus(cfg), m, n);
    }
  }

  lemma BonusGrows(bonus: real, m: int, n: int)
    requires bonus >= 0.0 && m <= n
    ensures bonus * m as real + (if m < n then bonus else 0.0) <= bonus * n as real
  {
    RealMulMono(m as real, n as real, bonus);
    if m < n {
      RealMulMono((m + 1) as real, n as real, bonus);
      assert (m + 1) as real * bonus == m as real * bonus + bonus;
    }
  }

  lemma WorthIsNonNegative(cfg: Config, d: real, n: int)
    requires cfg.rate > 0.0 && 0.0 <= d && 0 <= n
    ensures Worth(cfg, d, n) >= 0.0
  {
    RefillGrows(cfg, 0.0, d);
    RealMulMono(0.0, n as real, Bonus(cfg));
  }

  lemma PotentialFalls(cfg: Config, b: Bucket, from: real, now: real, to: real, resets: int)
    requires cfg.rate > 0.0 && cfg.burst >= 0 && Sound(b, from) && from <= now <= to
    requires resets == Resets(b, now, to) || resets == Hours(to - now)
    ensures Available(cfg, b, now) + Worth(cfg, to - now, resets) <= Potential(cfg, b, from, to)
  {
    ResetsShrink(b, from, now, to);
    WorthGrows(cfg, to - now, resets, to - from, Resets(b, from, to));
    assert to - from - (to - now) == now - from;
    if cfg.expires && b.Bucket? && from < b.expiresAt <= now {
      ExpiryIsPaid(cfg, b, from, now);
    } else {
      RefillPays(cfg, b, from, now);
    }
  }

  lemma ResetsAfterCheck(cfg: Config, b: Bucket, now: real, to: real)
    requires cfg.rate > 0.0 && now <= to
    ensures Resets(Check(cfg, b, now).1, now, to)
            == if Check(cfg, b, now).0.Allowed? then Hours(to - now) else Resets(b, now, to)
  {
    RenewedResets(Available(cfg, b, now) - 1.0, now, to);
  }

  lemma CheckIsPaid(cfg: Config, b: Bucket, from: real, now: real, to: real)
    requires cfg.rate > 0.0 && cfg.burst >= 0 && Sound(b, from) && from <= now <= to
    ensures var (reply, b') := Check(cfg, b, now);
            Sound(b', now) && (if reply.Allowed? then 1.0 else 0.0) + Potential(cfg, b', now, to) <= Potential(cfg, b, from, to)
  {
    var b' := Check(cfg, b, now).1;
    AvailableAfter(cfg, b, now);
    ResetsAfterCheck(cfg, b, now, to);
    PotentialFalls(cfg, b, from, now, to, Resets(b', now, to));
  }

  lemma PotentialIsNonNegative(cfg: Config, b: Bucket, from: real, to: real)
    requires cfg.rate > 0.0 && cfg.burst >= 0 && Sound(b, from) && from <= to
    ensures Potential(cfg, b, from, to) >= 0.0
  {
    AvailableIsNonNegative(cfg, b, from);
    HoursGrow(0.0, to - from);
    if b.Bucket? && b.expiresAt <= to { HoursGrow(0.0, to - b.expiresAt); }
    WorthIsNonNegative(cfg, to - from, Resets(b, from, to));
  }

  /** The potential argument: from any reachable bucket, admissions are paid from the potential. */
  lemma {:induction false} AdmissionsArePaid(cfg: Config, b: Bucket, times: seq<real>, from: real, to: real)
    requires cfg.rate > 0.0 && cfg.burst >= 0
    requires Sound(b, from) && Monotone(times) && Within(times, from, to)
    ensures CountTrue(Decisions(Step(cfg), b, times)) as real <= Potential(cfg, b, from, to)
    decreases |times|
  {
    if times == [] {
      PotentialIsNonNegative(cfg, b, from, to);
    } else {
      CheckIsPaid(cfg, b, from, times[0], to);
      AdmissionsArePaid(cfg, Check(cfg, b, times[0]).1, times[1..], times[0], to);
    }
  }

  lemma AvailableAfter(cfg: Config, b: Bucket, now: real)
    requires cfg.rate > 0.0 && cfg.burst >= 0 && Sound(b, now)
    ensures var (reply, b') := Check(cfg, b, now);
            && Sound(b', now)
            && Available(cfg, b', now) == Available(cfg, b, now) - (if reply.Allowed? then 1.0 else 0.0)
  {
    AvailableIsNonNegative(cfg, b, now);
  }

  lemma {:induction false} RunStaysSound(cfg: Config, b: Bucket, times: seq<real>, from: real, to: real)
    requires cfg.rate > 0.0 && cfg.burst >= 0
    requires Sound(b, from) && Monotone(times) && Within(times, from, to)
    ensures Sound(Final(Step(cfg), b, times), to)
    decreases |times|
  {
    if times != [] {
      AvailableAfter(cfg, b, times[0]);
      RunStaysSound(cfg, Check(cfg, b, times[0]).1, times[1..], times[0], to);
    }
  }

  lemma {:induction false} NothingWithoutBurst(cfg: Config, b: Bucket, times: seq<real>)
    requires cfg.rate > 0.0 && cfg.burst <= 0
    ensures CountTrue(Decisions(Step(cfg), b, times)) == 0
    decreases |times|
  {
    if times != [] {
      assert Available(cfg, b, times[0]) <= cfg.burst as real;
      NothingWithoutBurst(cfg, b, times[1..]);
    }
  }

  /** Admissions among the requests `i..j` of a run. */
  function AdmittedBetween(cfg: Config, times: seq<real>, i: nat, j: nat): nat
    requires cfg.rate > 0.0 && i <= j <= |times|
  {
    CountTrue(Run(cfg, times)[i..j])
  }

  lemma RunMiddle(cfg: Config, times: seq<real>, i: nat, j: nat)
    requires cfg.rate > 0.0 && i <= j <= |times|
    ensures Run(cfg, times)[i..j] ==
            Decisions(Step(cfg), Final(Step(cfg), Empty, times[..i]), times[i..j])
  {
    var b := Final(Step(cfg), Empty, times[..i]);
    DecisionsSplit(Step(cfg), Empty, times[..i], times[i..]);
    assert times == times[..i] + times[i..];
    DecisionsSplit(Step(cfg), b, times[i..j], times[j..]);
    assert times[i..] == times[i..j] + times[j..];
  }

  /** The most that an interval of `d` seconds can get: the burst, the refill, and a bonus for each whole
      idle hour that fits. */
  function MostAdmissions(cfg: Config, d: real): real {
    Max(cfg.burst as real, 0.0) + Worth(cfg, d, Hours(d))
  }

  lemma MostAdmissionsGrow(cfg: Config, c: real, d: real)
    requires cfg.rate > 0.0 && 0.0 <= c <= d
    ensures 0.0 <= MostAdmissions(cfg, c) <= MostAdmissions(cfg, d)
  {
    HoursGrow(c, d);
    WorthGrows(cfg, c, Hours(c), d, Hours(d));
    WorthIsNonNegative(cfg, c, Hours(c));
  }

  lemma AdmissionRenews(cfg: Config, b: Bucket, now: real, to: real)
    requires cfg.rate > 0.0 && cfg.burst >= 0 && Sound(b, now) && now <= to && Check(cfg, b, now).0.Allowed?
    ensures Sound(Check(cfg, b, now).1, now)
    ensures 1.0 + Potential(cfg, Check(cfg, b, now).1, now, to) <= MostAdmissions(cfg, to - now)
  {
    AvailableAfter(cfg, b, now);
    ResetsAfterCheck(cfg, b, now, to);
    AvailableIsNonNegative(cfg, b, now);
  }

  /** Until the first admission nothing is spent; from then on the key is renewed. */
  lemma {:induction false} FirstAdmissionRenews(cfg: Config, b: Bucket, times: seq<real>, from: real, to: real)
    requires cfg.rate > 0.0 && cfg.burst >= 0
    requires Sound(b, from) && Monotone(times) && Within(times, from, to)
    ensures CountTrue(Decisions(Step(cfg), b, times)) as real <= MostAdmissions(cfg, to - from)
    decreases |times|
  {
    if times == [] {
      MostAdmissionsGrow(cfg, to - from, to - from);
    } else {
      var now := times[0];
      MostAdmissionsGrow(cfg, to - now, to - from);
      if Check(cfg, b, now).0.Allowed? {
        AdmissionRenews(cfg, b, now, to);
        AdmissionsArePaid(cfg, Check(cfg, b, now).1, times[1..], now, to);
      } else {
        FirstAdmissionRenews(cfg, b, times[1..], now, to);
      }
    }
  }

  /** In any run with a monotone clock, the requests of any interval `[from, to]` get at most the burst
      plus what the rate refills, and for limiters whose expiry gives bursts away a bonus for each whole
      hour. */
  lemma AdmissionBound(cfg: Config, times: seq<real>, i: nat, j: nat, from: real, to: real)
    requires cfg.rate > 0.0
    requires Monotone(times) && i <= j <= |times| && Within(times[i..j], from, to)
    ensures AdmittedBetween(cfg, times, i, j) as real <= MostAdmissions(cfg, to - from)
    ensures ExpiryHarmless(cfg) ==> MostAdmissions(cfg, to - from) == Max(cfg.burst as real, 0.0) + Refill(cfg, to - from)
  {
    MostAdmissionsGrow(cfg, 0.0, to - from);
    RunMiddle(cfg, times, i, j);
    var b := Final(Step(cfg), Empty, times[..i]);
    if cfg.burst <= 0 {
      NothingWithoutBurst(cfg, b, times[i..j]);
    } else if i < j {
      PrefixIsSound(cfg, times, i);
      assert times[i..j][0] == times[i];
      FirstAdmissionRenews(cfg, b, times[i..j], times[i], to);
      MostAdmissionsGrow(cfg, to - times[i], to - from);
    }
    RefillGrows(cfg, 0.0, IDLE_TTL);
  }

  lemma PrefixIsSound(cfg: Config, times: seq<real>, i: nat)
    requires cfg.rate > 0.0 && cfg.burst >= 0 && Monotone(times) && i < |times|
    ensures Sound(Final(Step(cfg), Empty, times[..i]), times[i])
  {
    if i > 0 { RunStaysSound(cfg, Empty, times[..i], times[0], times[i]); }
  }

  // ---- When is the idle expiry visible? ----

  lemma {:induction false} ExpiryRunUnobservable(cfg: Config, b: Bucket, times: seq<real>, from: real)
    requires cfg.rate > 0.0 && cfg.burst >= 0 && ExpiryHarmless(cfg)
    requires Sound(b, from) && Monotone(times) && (times != [] ==> from <= times[0])
    ensures Decisions(Step(cfg), b, times) == Decisions(Step(cfg.(expires := false)), b, times)
    decreases |times|
  {
    if times != [] {
      ExpiryKeepsAvailable(cfg, b, times[0]);
      AvailableAfter(cfg, b, times[0]);
      ExpiryRunUnobservable(cfg, Check(cfg, b, times[0]).1, times[1..], times[0]);
    }
  }

  /** Requests at one instant are admitted while whole tokens last. */
  lemma {:induction false} Drain(cfg: Config, b: Bucket, n: nat, t: real)
    requires cfg.rate > 0.0 && cfg.burst >= 0 && Sound(b, t) && Available(cfg, b, t) >= n as real
    ensures CountTrue(Decisions(Step(cfg), b, Repeat(n, t))) == n
    ensures Sound(Final(Step(cfg), b, Repeat(n, t)), t)
    ensures n > 0 ==> Final(Step(cfg), b, Repeat(n, t)).Bucket? && Final(Step(cfg), b, Repeat(n, t)).lastRefill == t
    ensures Available(cfg, Final(Step(cfg), b, Repeat(n, t)), t) == Available(cfg, b, t) - n as real
    decreases n
  {
    if n > 0 {
      AvailableAfter(cfg, b, t);
      assert Repeat(n, t)[1..] == Repeat((n - 1) as nat, t);
      Drain(cfg, Check(cfg, b, t).1, n - 1, t);
    }
  }

  /** `n` pauses after 0. */
  function After(n: nat, pause: real): real {
    if n == 0 then 0.0 else After(n - 1, pause) + pause
  }

  lemma {:induction false} AfterIsProduct(n: nat, pause: real)
    ensures After(n, pause) == n as real * pause
  {
    if n > 0 {
      AfterIsProduct(n - 1, pause);
      assert n as real * pause == (n - 1) as real * pause + pause;
    }
  }

  /** `first` requests at 0, then `more` after each of `n` pauses. */
  function Bursts(first: nat, more: nat, pause: real, n: nat): seq<real> {
    if n == 0 then Repeat(first, 0.0) else Bursts(first, more, pause, n - 1) + Repeat(more, After(n, pause))
  }

  /** The key is empty since `t`. */
  ghost predicate Spent(cfg: Config, b: Bucket, t: real) {
    b.Bucket? && b.lastRefill == t && Sound(b, t) && Available(cfg, b, t) == 0.0
  }

  lemma NextBurst(cfg: Config, times: seq<real>, b: Bucket, n: nat, t: real)
    requires cfg.rate > 0.0 && cfg.burst >= 0
    requires b == Final(Step(cfg), Empty, times) && Sound(b, t) && Available(cfg, b, t) >= n as real
    ensures CountTrue(Run(cfg, times + Repeat(n, t))) == CountTrue(Run(cfg, times)) + n
    ensures var b' := Final(Step(cfg), Empty, times + Repeat(n, t));
            && Sound(b', t) && Available(cfg, b', t) == Available(cfg, b, t) - n as real
            && (n > 0 ==> b'.Bucket? && b'.lastRefill == t)
  {
    Drain(cfg, b, n, t);
    DecisionsSplit(Step(cfg), Empty, times, Repeat(n, t));
    CountTrueSplit(Decisions(Step(cfg), Empty, times), Decisions(Step(cfg), b, Repeat(n, t)));
  }

  lemma MonotoneExtends(times: seq<real>, n: nat, t: real, from: real, last: real)
    requires Monotone(times) && Within(times, from, last) && last <= t
    ensures Monotone(times + Repeat(n, t)) && Within(times + Repeat(n, t), from, t)
  {
  }

  /** A run up to `end` that has used up all there was. */
  ghost predicate UsedUp(cfg: Config, times: seq<real>, end: real, count: nat)
    requires cfg.rate > 0.0
  {
    && Monotone(times) && Within(times, 0.0, end)
    && CountTrue(Run(cfg, times)) == count
    && Spent(cfg, Final(Step(cfg), Empty, times), end)
  }

  lemma UsedUpAgain(cfg: Config, times: seq<real>, end: real, count: nat, n: nat, t: real)
    requires cfg.rate > 0.0 && cfg.burst >= 0 && n > 0 && end <= t && UsedUp(cfg, times, end, count)
    requires Available(cfg, Final(Step(cfg), Empty, times), t) == n as real
    ensures UsedUp(cfg, times + Repeat(n, t), t, count + n)
  {
    NextBurst(cfg, times, Final(Step(cfg), Empty, times), n, t);
    MonotoneExtends(times, n, t, 0.0, end);
  }

  lemma FirstUsesUp(cfg: Config, more: nat, pause: real)
    requires cfg.rate > 0.0 && cfg.burst > 0
    ensures UsedUp(cfg, Bursts(cfg.burst, more, pause, 0), 0.0, cfg.burst)
  {
    assert [] + Repeat(cfg.burst, 0.0) == Bursts(cfg.burst, more, pause, 0);
    NextBurst(cfg, [], Empty, cfg.burst, 0.0);
  }

  /** Each pause puts exactly `more` tokens on hand. */
  ghost predicate PauseYields(cfg: Config, more: nat, pause: real) {
    forall b, t :: Spent(cfg, b, t) ==> Available(cfg, b, t + pause) == more as real
  }

  lemma {:induction false} BurstsUseUp(cfg: Config, more: nat, pause: real, n: nat)
    requires cfg.rate > 0.0 && cfg.burst > 0 && more > 0 && pause >= 0.0 && PauseYields(cfg, more, pause)
    ensures UsedUp(cfg, Bursts(cfg.burst, more, pause, n), After(n, pause), cfg.burst + n * more)
    decreases n
  {
    if n == 0 {
      FirstUsesUp(cfg, more, pause);
    } else {
      BurstsUseUp(cfg, more, pause, n - 1);
      UsedUpAgain(cfg, Bursts(cfg.burst, more, pause, n - 1), After(n - 1, pause), cfg.burst + (n - 1) * more,
                  more, After(n, pause));
      assert cfg.burst + (n - 1) * more + more == cfg.burst + n * more;
    }
  }

  /** An hour of silence expires the key. */
  lemma HourYieldsBurst(cfg: Config)
    requires cfg.rate > 0.0 && cfg.burst > 0 && cfg.expires
    ensures PauseYields(cfg, cfg.burst, IDLE_TTL)
  {
  }

  /** A full burst, an hour of silence, a full burst. */
  function HourApart(burst: nat): seq<real> {
    Bursts(burst, burst, IDLE_TTL, 1)
  }

  lemma HourApartAdmitsTwoBursts(cfg: Config)
    requires cfg.rate > 0.0 && cfg.burst > 0 && cfg.expires
    ensures Monotone(HourApart(cfg.burst)) && Within(HourApart(cfg.burst), 0.0, IDLE_TTL)
    ensures CountTrue(Run(cfg, HourApart(cfg.burst))) == 2 * cfg.burst
  {
    HourYieldsBurst(cfg);
    BurstsUseUp(cfg, cfg.burst, IDLE_TTL, 1);
    assert After(1, IDLE_TTL) == After(0, IDLE_TTL) + IDLE_TTL;
  }

  lemma HourApartWithoutExpiry(cfg: Config)
    requires cfg.rate > 0.0 && cfg.burst > 0 && !cfg.expires
    ensures CountTrue(Run(cfg, HourApart(cfg.burst))) as real <= cfg.burst as real + Refill(cfg, IDLE_TTL)
  {
    var times := HourApart(cfg.burst);
    HourApartAdmitsTwoBursts(cfg.(expires := true));
    assert times[0..|times|] == times && Run(cfg, times)[0..|times|] == Run(cfg, times);
    AdmissionBound(cfg, times, 0, |times|, 0.0, IDLE_TTL);
  }

  /** The idle expiry changes no decision of any run exactly when an idle hour refills the bucket
      anyway, `3600 * rate >= max_burst`. */
  lemma ExpiryIsUnobservableExactly(cfg: Config)
    requires cfg.rate > 0.0 && cfg.expires && cfg.burst >= 0
    ensures (forall times :: Monotone(times) ==> Run(cfg, times) == Run(cfg.(expires := false), times))
            <==> Refill(cfg, IDLE_TTL) >= cfg.burst as real
  {
    if Refill(cfg, IDLE_TTL) >= cfg.burst as real {
      forall times | Monotone(times) ensures Run(cfg, times) == Run(cfg.(expires := false), times) {
        ExpiryRunUnobservable(cfg, Empty, times, if times == [] then 0.0 else times[0]);
      }
    } else {
      assert cfg.burst > 0;
      HourApartAdmitsTwoBursts(cfg);
      HourApartWithoutExpiry(cfg.(expires := false));
      assert Run(cfg, HourApart(cfg.burst)) != Run(cfg.(expires := false), HourApart(cfg.burst));
    }
  }

  /** The same condition decides whether the script as written keeps the burst-plus-rate bound. */
  lemma ScriptKeepsTheBoundExactly(cfg: Config)
    requires cfg.rate > 0.0 && cfg.expires && cfg.burst >= 0
    ensures (forall times, i: nat, j: nat, from, to ::
               Monotone(times) && i <= j <= |times| && Within(times[i..j], from, to)
               ==> AdmittedBetween(cfg, times, i, j) as real <= cfg.burst as real + Refill(cfg, to - from))
            <==> Refill(cfg, IDLE_TTL) >= cfg.burst as real
  {
    if Refill(cfg, IDLE_TTL) >= cfg.burst as real {
      forall times, i: nat, j: nat, from, to | Monotone(times) && i <= j <= |times| && Within(times[i..j], from, to)
        ensures AdmittedBetween(cfg, times, i, j) as real <= cfg.burst as real + Refill(cfg, to - from)
      {
        AdmissionBound(cfg, times, i, j, from, to);
      }
    } else {
      assert cfg.burst > 0;
      HourApartAdmitsTwoBursts(cfg);
      var times := HourApart(cfg.burst);
      assert times[0..|times|] == times && Run(cfg, times)[0..|times|] == Run(cfg, times);
      assert Within(times[0..|times|], 0.0, IDLE_TTL);
      assert AdmittedBetween(cfg, times, 0, |times|) == 2 * cfg.burst;
    }
  }

  // ---- The bound is attained ----

  lemma RefillAfterHours(cfg: Config, hours: nat, r: real)
    ensures Refill(cfg, hours as real * IDLE_TTL + r) == hours as real * Refill(cfg, IDLE_TTL) + Refill(cfg, r)
  {
    assert hours as real * IDLE_TTL * cfg.rate == hours as real * (IDLE_TTL * cfg.rate);
  }

  lemma MostAfterHours(cfg: Config, hours: nat, r: real)
    requires cfg.rate > 0.0 && cfg.burst >= 1 && cfg.expires && Refill(cfg, IDLE_TTL) <= cfg.burst as real
    requires 0.0 <= r < IDLE_TTL
    ensures MostAdmissions(cfg, hours as real * IDLE_TTL + r) == ((hours + 1) * cfg.burst) as real + Refill(cfg, r)
  {
    RefillAfterHours(cfg, hours, r);
    assert Hours(hours as real * IDLE_TTL + r) == hours;
    var burst, hour, k := cfg.burst as real, Refill(cfg, IDLE_TTL), hours as real;
    assert (burst - hour) * k == burst * k - hour * k;
    assert ((hours + 1) * cfg.burst) as real == burst * k + burst;
  }

  /** Where the expiry gives bursts away: a burst an hour, and at the end what the rest has refilled. */
  lemma HoursAttain(cfg: Config, hours: nat, r: real) returns (times: seq<real>)
    requires cfg.rate > 0.0 && cfg.burst >= 1 && cfg.expires && Refill(cfg, IDLE_TTL) <= cfg.burst as real
    requires 0.0 <= r < IDLE_TTL
    ensures var d := After(hours, IDLE_TTL) + r;
            Monotone(times) && Within(times, 0.0, d) && CountTrue(Run(cfg, times)) == MostAdmissions(cfg, d).Floor
  {
    HourYieldsBurst(cfg);
    BurstsUseUp(cfg, cfg.burst, IDLE_TTL, hours);
    AfterIsProduct(hours, IDLE_TTL);
    MostAfterHours(cfg, hours, r);
    assert cfg.burst + hours * cfg.burst == (hours + 1) * cfg.burst;
    times := RestAttains(cfg, Bursts(cfg.burst, cfg.burst, IDLE_TTL, hours), After(hours, IDLE_TTL),
                         (hours + 1) * cfg.burst, r);
  }

  lemma RestAttains(cfg: Config, bursts: seq<real>, end: real, count: nat, r: real) returns (times: seq<real>)
    requires cfg.rate > 0.0 && cfg.burst >= 1 && cfg.expires && Refill(cfg, IDLE_TTL) <= cfg.burst as real
    requires 0.0 <= r < IDLE_TTL && UsedUp(cfg, bursts, end, count)
    ensures Monotone(times) && Within(times, 0.0, end + r)
    ensures CountTrue(Run(cfg, times)) == (count as real + Refill(cfg, r)).Floor
  {
    var b := Final(Step(cfg), Empty, bursts);
    LiveAvailableLater(cfg, b, end, r);
    RefillGrows(cfg, 0.0, r);
    RefillGrows(cfg, r, IDLE_TTL);
    var m: nat := Refill(cfg, r).Floor;
    NextBurst(cfg, bursts, b, m, end + r);
    MonotoneExtends(bursts, m, end + r, 0.0, end);
    times := bursts + Repeat(m, end + r);
  }

  /** Where it does not, a token is back after each pause of `1 / rate`. */
  lemma PauseYieldsToken(cfg: Config)
    requires cfg.rate > 0.0 && cfg.burst >= 1 && (cfg.expires ==> Refill(cfg, IDLE_TTL) > 1.0)
    ensures PauseYields(cfg, 1, 1.0 / cfg.rate)
  {
    var pause := 1.0 / cfg.rate;
    QuotientBound(1.0, cfg.rate, 0.0);
    assert cfg.expires ==> pause < IDLE_TTL by {
      if cfg.expires && pause >= IDLE_TTL { RefillGrows(cfg, IDLE_TTL, pause); }
    }
    forall b, t | Spent(cfg, b, t) ensures Available(cfg, b, t + pause) == 1.0 {
      LiveAvailableLater(cfg, b, t, pause);
    }
  }

  lemma PausesFit(rate: real, pause: real, d: real, m: nat)
    requires rate > 0.0 && pause >= 0.0 && pause * rate == 1.0 && m as real <= d * rate
    ensures m as real * pause <= d
  {
    RealMulMono(m as real, d * rate, pause);
    assert d * rate * pause == d * (pause * rate);
  }

  lemma MostWithoutBonus(cfg: Config, d: real, m: nat)
    requires cfg.burst >= 1 && (cfg.expires ==> Refill(cfg, IDLE_TTL) > cfg.burst as real)
    requires m as real <= Refill(cfg, d) < (m + 1) as real
    ensures MostAdmissions(cfg, d).Floor == cfg.burst + m
  {
    assert Bonus(cfg) == 0.0;
  }

  lemma PausesAttain(cfg: Config, d: real) returns (times: seq<real>)
    requires cfg.rate > 0.0 && cfg.burst >= 1 && (cfg.expires ==> Refill(cfg, IDLE_TTL) > cfg.burst as real)
    requires d >= 0.0
    ensures Monotone(times) && Within(times, 0.0, d)
    ensures CountTrue(Run(cfg, times)) == MostAdmissions(cfg, d).Floor
  {
    assert Refill(cfg, d) >= 0.0 by { RefillGrows(cfg, 0.0, d); }
    var m: nat := Refill(cfg, d).Floor;
    PauseYieldsToken(cfg);
    QuotientBound(1.0, cfg.rate, 0.0);
    PausesEnd(cfg.rate, 1.0 / cfg.rate, d, m);
    PausesUseUp(cfg, 1.0 / cfg.rate, d, m);
    MostWithoutBonus(cfg, d, m);
    times := Bursts(cfg.burst, 1, 1.0 / cfg.rate, m);
  }

  /** As many pauses as fit into the span. */
  lemma PausesUseUp(cfg: Config, pause: real, d: real, m: nat)
    requires cfg.rate > 0.0 && cfg.burst >= 1 && pause >= 0.0 && PauseYields(cfg, 1, pause)
    requires After(m, pause) <= d
    ensures var times := Bursts(cfg.burst, 1, pause, m);
            Monotone(times) && Within(times, 0.0, d) && CountTrue(Run(cfg, times)) == cfg.burst + m
  {
    BurstsUseUp(cfg, 1, pause, m);
    UsedUpWithin(cfg, Bursts(cfg.burst, 1, pause, m), After(m, pause), cfg.burst + m, d);
  }

  lemma PausesEnd(rate: real, pause: real, d: real, m: nat)
    requires rate > 0.0 && pause >= 0.0 && pause * rate == 1.0 && m as real <= d * rate
    ensures After(m, pause) <= d
  {
    AfterIsProduct(m, pause);
    PausesFit(rate, pause, d, m);
  }

  lemma UsedUpWithin(cfg: Config, times: seq<real>, end: real, count: nat, d: real)
    requires cfg.rate > 0.0 && UsedUp(cfg, times, end, count) && end <= d
    ensures Monotone(times) && Within(times, 0.0, d) && CountTrue(Run(cfg, times)) == count
  {
  }

  /** The bound is the best possible: for every limiter that admits anything and every span there is a run
      that gets all of it, but for the fraction. */
  lemma BoundIsAttained(cfg: Config, d: real)
    requires cfg.rate > 0.0 && cfg.burst >= 1 && d >= 0.0
    ensures exists times :: Monotone(times) && Within(times, 0.0, d)
                            && CountTrue(Run(cfg, times)) == MostAdmissions(cfg, d).Floor
  {
    if cfg.expires && Refill(cfg, IDLE_TTL) <= cfg.burst as real {
      HoursGrow(0.0, d);
      AfterIsProduct(Hours(d), IDLE_TTL);
      var times := HoursAttain(cfg, Hours(d), d - Hours(d) as real * IDLE_TTL);
    } else {
      var times := PausesAttain(cfg, d);
    }
  }

  // ---- Denials ----

  /** Denied requests leave no trace: dropping any of them changes no other decision of the run. */
  lemma DeniedRequestsLeaveNoTrace(cfg: Config, times: seq<real>, mark: seq<bool>)
    requires cfg.rate > 0.0 && |mark| == |times|
    requires forall i :: 0 <= i < |times| && !mark[i] ==> !Run(cfg, times)[i]
    ensures Run(cfg, Keep(times, mark)) == Keep(Run(cfg, times), mark)
  {
    assert DenialsKeepState(Step(cfg));
    DeniedRequestsAreInvisible(Step(cfg), Empty, times, mark);
  }

  lemma CeilIsLeast(x: real, d: int)
    ensures d >= Ceil(x) <==> d as real >= x
  {
  }

  lemma WaitSuffices(cfg: Config, tokens: real, wait: nat)
    requires cfg.rate > 0.0 && tokens < 1.0
    ensures SecondsToRefill(cfg, 1.0 - tokens) >= 1
    ensures tokens + Refill(cfg, wait as real) >= 1.0 <==> wait >= SecondsToRefill(cfg, 1.0 - tokens)
  {
    CeilIsLeast((1.0 - tokens) / cfg.rate, wait);
    CeilIsLeast((1.0 - tokens) / cfg.rate, 0);
    QuotientBound(1.0 - tokens, cfg.rate, wait as real);
    QuotientBound(1.0 - tokens, cfg.rate, 0.0);
  }

  /** `retry_after` is exact: with no admission in between, a retry after a whole number of seconds
      is admitted if and only if it waits at least that long or the key has expired meanwhile.  So it is
      always long enough, and where the expiry gives nothing away it is never too long. */
  lemma RetryAfterIsExact(cfg: Config, b: Bucket, now: real, wait: nat)
    requires cfg.rate > 0.0 && cfg.burst >= 1 && Sound(b, now)
    requires Check(cfg, b, now).0.Denied?
    ensures b.Bucket? && Check(cfg, b, now).0.retryAfter >= 1
    ensures Check(cfg, b, now + wait as real).0.Allowed?
            <==> wait >= Check(cfg, b, now).0.retryAfter || (cfg.expires && b.expiresAt <= now + wait as real)
    ensures ExpiryHarmless(cfg) && cfg.expires && b.expiresAt <= now + wait as real
            ==> wait >= Check(cfg, b, now).0.retryAfter
  {
    WaitSuffices(cfg, Available(cfg, b, now), wait);
    if cfg.expires && b.expiresAt <= now + wait as real {
      if ExpiryHarmless(cfg) { AvailableLater(cfg, b, now, wait as real); }
    } else {
      LiveAvailableLater(cfg, b, now, wait as real);
    }
  }

  lemma LiveAvailableLater(cfg: Config, b: Bucket, now: real, wait: real)
    requires cfg.rate > 0.0 && Sound(b, now) && wait >= 0.0
    requires !(cfg.expires && b.Bucket? && b.expiresAt <= now + wait)
    ensures Available(cfg, b, now + wait) == Min(cfg.burst as real, Available(cfg, b, now) + Refill(cfg, wait))
  {
    PlainIsAlike(cfg, b, now, wait);
    PlainIsAlike(cfg, b, now + wait, wait);
    PlainAvailableLater(cfg.(expires := false), b, now, wait);
  }

  // ---- The replies ----

  /** Of `n` requests at one instant all are admitted exactly when that many tokens are on hand. */
  lemma {:induction false} AllAtOnceExactly(cfg: Config, b: Bucket, n: nat, t: real)
    requires cfg.rate > 0.0 && cfg.burst >= 0 && Sound(b, t)
    ensures CountTrue(Decisions(Step(cfg), b, Repeat(n, t))) == n <==> n as real <= Available(cfg, b, t)
    decreases n
  {
    AvailableIsNonNegative(cfg, b, t);
    if n > 0 {
      var b' := Check(cfg, b, t).1;
      AvailableAfter(cfg, b, t);
      assert Repeat(n, t)[1..] == Repeat((n - 1) as nat, t);
      AllAtOnceExactly(cfg, b', n - 1, t);
      CountTrueBound(Decisions(Step(cfg), b', Repeat((n - 1) as nat, t)));
    }
  }

  /** An admission is told how many more requests the same instant admits, no more and no less. */
  lemma RemainingIsExact(cfg: Config, b: Bucket, now: real, n: nat)
    requires cfg.rate > 0.0 && cfg.burst >= 0 && Sound(b, now) && Check(cfg, b, now).0.Allowed?
    ensures var (reply, b') := Check(cfg, b, now);
            CountTrue(Decisions(Step(cfg), b', Repeat(n, now))) == n <==> n <= reply.remaining
  {
    AvailableAfter(cfg, b, now);
    AllAtOnceExactly(cfg, Check(cfg, b, now).1, n, now);
  }

  /** `resets_at` of an admission is the first whole second after it from which the bucket is full again if
      nothing is admitted meanwhile; with the expiry the bucket is full from the idle hour on as well. */
  lemma ResetAtIsExact(cfg: Config, b: Bucket, now: real, wait: nat)
    requires cfg.rate > 0.0 && cfg.burst >= 0 && Sound(b, now) && Check(cfg, b, now).0.Allowed?
    ensures var (reply, b') := Check(cfg, b, now);
            Available(cfg, b', now + wait as real) == cfg.burst as real
            <==> reply.resetAt <= now + wait as real || (cfg.expires && wait >= 3600)
  {
    var b' := Check(cfg, b, now).1;
    AvailableAfter(cfg, b, now);
    if !(cfg.expires && wait >= 3600) {
      LiveAvailableLater(cfg, b', now, wait as real);
      assert Available(cfg, b', now) == b'.tokens by { AvailableIsNonNegative(cfg, b, now); }
      FullAgain(cfg, b'.tokens, wait);
    }
  }

  lemma FullAgain(cfg: Config, tokens: real, wait: nat)
    requires cfg.rate > 0.0
    ensures Min(cfg.burst as real, tokens + Refill(cfg, wait as real)) == cfg.burst as real
            <==> wait >= SecondsToRefill(cfg, cfg.burst as real - tokens)
  {
    CeilIsLeast((cfg.burst as real - tokens) / cfg.rate, wait);
    QuotientBound(cfg.burst as real - tokens, cfg.rate, wait as real);
  }

  /** A denial tells that nothing remains, and when the retry may come. */
  lemma DenialReplies(cfg: Config, b: Bucket, now: real)
    requires cfg.rate > 0.0 && cfg.burst >= 0 && Sound(b, now) && Check(cfg, b, now).0.Denied?
    ensures var reply := Check(cfg, b, now).0; reply.remaining == 0 && reply.resetAt == now + reply.retryAfter as real
  {
    AvailableIsNonNegative(cfg, b, now);
  }

  /** At its first instant a limiter admits as many requests as the given burst, or when none is given, or 0,
      as the rate has whole requests a second. */
  lemma BurstMeans(rate: real, maxBurst: Option<int>, expires: bool, n: nat, t: real)
    requires rate > 0.0
    ensures CountTrue(Decisions(Step(Config(rate, EffectiveBurst(rate, maxBurst), expires)), Empty, Repeat(n, t))) == n
            <==> n == 0 || n as real <= if maxBurst == None || maxBurst == Some(0) then rate else maxBurst.value as real
  {
    FullAtFirst(Config(rate, EffectiveBurst(rate, maxBurst), expires), n, t);
  }

  lemma FullAtFirst(cfg: Config, n: nat, t: real)
    requires cfg.rate > 0.0
    ensures CountTrue(Decisions(Step(cfg), Empty, Repeat(n, t))) == n <==> n == 0 || n <= cfg.burst
  {
    if cfg.burst >= 0 {
      AllAtOnceExactly(cfg, Empty, n, t);
    } else {
      NothingWithoutBurst(cfg, Empty, Repeat(n, t));
    }
  }

  /** A limiter built with the default burst admits something if and only if its rate is at least one
      request a second: below that `int(rate)` is 0 and every request is refused. */
  lemma DefaultBurstAdmitsExactly(rate: real, expires: bool)
    requires rate > 0.0
    ensures (exists times :: CountTrue(Run(Config(rate, EffectiveBurst(rate, None), expires), times)) > 0)
            <==> rate >= 1.0
  {
    var cfg := Config(rate, EffectiveBurst(rate, None), expires);
    if rate >= 1.0 {
      Drain(cfg, Empty, 1, 0.0);
      assert CountTrue(Run(cfg, Repeat(1, 0.0))) > 0;
    } else {
      forall times ensures CountTrue(Run(cfg, times)) == 0 {
        NothingWithoutBurst(cfg, Empty, times);
      }
    }
  }
}
