/** The risk engine of a session: the sorted-set window of addresses, the pinned device fingerprint and
    the decision.

    The clock is read once in a call, and all commands of a call happen at that instant.  The travel
    signal (geography and speed) and the address syntax are parameters. */
module IpWindow {
  import opened Options

  datatype Config = Config(
    window: real, threshold: int, keyTtl: real,
    riskTravel: real, riskIps: real, riskDevice: real, riskGeo: real,
    allowThreshold: real, stepUpThreshold: real)

  /** A sorted set that a TTL has been put on. */
  datatype SortedSet = SortedSet(scores: map<string, real>, expiresAt: real)

  datatype Pin = Pin(fingerprint: string, expiresAt: real)

  datatype Travel = Unremarkable | CountryChange | ImpossibleTravel

  datatype Decision = Allow | StepUp | Deny

  datatype Assessment = Assessment(count: nat, mismatch: bool, score: real, decision: Decision)

  // ---- The window of addresses ----

  /** A set that has expired is gone. */
  function Alive(z: Option<SortedSet>, now: real): map<string, real> {
    if z.Some? && now < z.value.expiresAt then z.value.scores else map[]
  }

  function Above(scores: map<string, real>, floor: real): map<string, real> {
    map ip | ip in scores && scores[ip] > floor :: scores[ip]
  }

  /** ZREMRANGEBYSCORE -inf floor, then ZADD. */
  function Touched(z: Option<SortedSet>, cfg: Config, ip: string, now: real): map<string, real> {
    Above(Alive(z, now), now - cfg.window)[ip := now]
  }

  /** EXPIRE with a TTL that is not positive removes the set. */
  function WindowAfter(z: Option<SortedSet>, cfg: Config, ip: string, now: real): Option<SortedSet> {
    Some(SortedSet(Touched(z, cfg, ip, now), now + cfg.keyTtl))
  }

  // ---- The pinned fingerprint ----

  function Pinned(p: Option<Pin>, now: real): Option<string> {
    if p.Some? && now < p.value.expiresAt then Some(p.value.fingerprint) else None
  }

  predicate Mismatch(p: Option<Pin>, fingerprint: string, now: real) {
    fingerprint != "" && Pinned(p, now).Some? && Pinned(p, now).value != fingerprint
  }

  function PinAfter(p: Option<Pin>, cfg: Config, fingerprint: string, now: real): Option<Pin> {
    if fingerprint != "" && Pinned(p, now).None? then Some(Pin(fingerprint, now + cfg.keyTtl)) else p
  }

  // ---- Score and decision ----

  function RawScore(cfg: Config, mismatch: bool, count: nat, travel: Travel): real {
    (if mismatch then cfg.riskDevice else 0.0)
    + (if count > cfg.threshold then cfg.riskIps else 0.0)
    + (match travel
       case Unremarkable => 0.0
       case CountryChange => cfg.riskGeo
       case ImpossibleTravel => cfg.riskTravel)
  }

  /** Rounds to thousandths, halves to even, and caps at 1. */
  function Score(raw: real): real {
    var t := raw * 1000.0;
    var rest := t - t.Floor as real;
    var n := if rest < 0.5 || (rest == 0.5 && t.Floor % 2 == 0) then t.Floor else t.Floor + 1;
    if n as real / 1000.0 <= 1.0 then n as real / 1000.0 else 1.0
  }

  function DecisionForScore(cfg: Config, score: real): Decision {
    if score < cfg.allowThreshold then Allow else if score <= cfg.stepUpThreshold then StepUp else Deny
  }

  function Decide(cfg: Config, mismatch: bool, count: nat, travel: Travel): Decision {
    if travel == ImpossibleTravel then Deny
    else DecisionForScore(cfg, Score(RawScore(cfg, mismatch, count, travel)))
  }

  class SessionSecurityValidator {
    const cfg: Config
    const validIp: string -> bool
    var ips: Option<SortedSet>
    var pin: Option<Pin>

    constructor (cfg: Config, validIp: string -> bool)
      ensures this.cfg == cfg && this.validIp == validIp && ips == None && pin == None
    {
      this.cfg, this.validIp := cfg, validIp;
      ips, pin := None, None;
    }

    method AddRisks(mismatch: bool, count: nat, travel: Travel) returns (raw: real)
      ensures raw == RawScore(cfg, mismatch, count, travel)
    {
      raw := 0.0;
      if mismatch { raw := raw + cfg.riskDevice; }
      if count > cfg.threshold { raw := raw + cfg.riskIps; }
      match travel {
        case Unremarkable =>
        case CountryChange => raw := raw + cfg.riskGeo;
        case ImpossibleTravel => raw := raw + cfg.riskTravel;
      }
    }

    /** One request of the session; a missing fingerprint is the empty string, and an address that does
        not parse raises before anything is written. */
    method Assess(ip: string, fingerprint: string, travel: Travel, now: real) returns (r: Option<Assessment>)
      modifies this
      ensures r.Some? <==> validIp(ip)
      ensures r.None? ==> ips == old(ips) && pin == old(pin)
      ensures r.Some? ==>
                && ips == WindowAfter(old(ips), cfg, ip, now)
                && pin == PinAfter(old(pin), cfg, fingerprint, now)
                && r.value.count == |Touched(old(ips), cfg, ip, now)|
                && r.value.mismatch == Mismatch(old(pin), fingerprint, now)
                && r.value.score == Score(RawScore(cfg, r.value.mismatch, r.value.count, travel))
                && r.value.decision == Decide(cfg, r.value.mismatch, r.value.count, travel)
    {
      if !validIp(ip) { return None; }
      var scores := Alive(ips, now);
      var floor := now - cfg.window;
      scores := Above(scores, floor);
      scores := scores[ip := now];
      var count := |scores|;
      var mismatch := false;
      if fingerprint != "" {
        var existing := Pinned(pin, now);
        if existing.Some? && existing.value != fingerprint {
          mismatch := true;
        } else if existing.None? {
          pin := Some(Pin(fingerprint, now + cfg.keyTtl));
        }
      }
      var raw := AddRisks(mismatch, count, travel);
      var decision := DecisionForScore(cfg, Score(raw));
      if travel == ImpossibleTravel { decision := Deny; }
      ips := Some(SortedSet(scores, now + cfg.keyTtl));
      return Some(Assessment(count, mismatch, Score(raw), decision));
    }
  }

  // ---- The window agrees with the history ----

  datatype Visit = Visit(ip: string, at: real)

  /** The addresses seen strictly after `floor`. */
  ghost function Recent(history: seq<Visit>, floor: real): set<string> {
    set i | 0 <= i < |history| && history[i].at > floor :: history[i].ip
  }

  ghost predicate Monotone(history: seq<Visit>) {
    forall i, j :: 0 <= i < j < |history| ==> history[i].at <= history[j].at
  }

  function After(cfg: Config, history: seq<Visit>): Option<SortedSet> {
    if history == [] then None
    else
      var n := |history| - 1;
      WindowAfter(After(cfg, history[..n]), cfg, history[n].ip, history[n].at)
  }

  /** From `floor` on, the set says who has been seen since. */
  ghost predicate Faithful(scores: map<string, real>, history: seq<Visit>, floor: real) {
    forall f: real :: f >= floor ==> Above(scores, f).Keys == Recent(history, f)
  }

  lemma NothingIsRecentAfter(history: seq<Visit>, floor: real)
    requires forall i :: 0 <= i < |history| ==> history[i].at <= floor
    ensures Recent(history, floor) == {}
  {
  }

  lemma RecentNext(history: seq<Visit>, v: Visit, floor: real)
    ensures Recent(history + [v], floor) == Recent(history, floor) + (if v.at > floor then {v.ip} else {})
  {
    var next := history + [v];
    forall i | 0 <= i < |history| && history[i].at > floor ensures history[i].ip in Recent(next, floor) {
      assert next[i] == history[i];
    }
    assert next[|history|] == v;
  }

  /** The TTL does not lose anything that a later call counts, as long as it covers the window. */
  lemma AliveIsFaithful(cfg: Config, history: seq<Visit>, now: real)
    requires Monotone(history) && cfg.keyTtl >= cfg.window
    requires history != [] ==> history[|history| - 1].at <= now
    requires history != [] ==> Faithful(After(cfg, history).value.scores, history, history[|history| - 1].at - cfg.window)
    ensures Faithful(Alive(After(cfg, history), now), history, now - cfg.window)
  {
    var z := After(cfg, history);
    forall f: real | f >= now - cfg.window ensures Above(Alive(z, now), f).Keys == Recent(history, f) {
      if z.None? || now >= z.value.expiresAt {
        NothingIsRecentAfter(history, f);
      }
    }
  }

  lemma TouchedIsFaithful(cfg: Config, scores: map<string, real>, history: seq<Visit>, v: Visit)
    requires Faithful(scores, history, v.at - cfg.window)
    requires forall i :: 0 <= i < |history| ==> history[i].at <= v.at
    ensures Faithful(Above(scores, v.at - cfg.window)[v.ip := v.at], history + [v], v.at - cfg.window)
  {
    var floor := v.at - cfg.window;
    var touched := Above(scores, floor)[v.ip := v.at];
    forall f: real | f >= floor ensures Above(touched, f).Keys == Recent(history + [v], f) {
      RecentNext(history, v, f);
      assert Above(scores, f).Keys == Recent(history, f);
      if f < v.at {
        assert Above(touched, f).Keys == Above(scores, f).Keys + {v.ip};
      } else {
        NothingIsRecentAfter(history, f);
        assert forall ip :: ip in Above(touched, f).Keys ==> ip in Above(scores, f).Keys;
      }
    }
  }

  lemma {:induction false} WindowIsFaithful(cfg: Config, history: seq<Visit>)
    requires history != [] && Monotone(history) && cfg.keyTtl >= cfg.window
    ensures Faithful(After(cfg, history).value.scores, history, history[|history| - 1].at - cfg.window)
    decreases |history|
  {
    var n := |history| - 1;
    if n > 0 { WindowIsFaithful(cfg, history[..n]); }
    AliveIsFaithful(cfg, history[..n], history[n].at);
    TouchedIsFaithful(cfg, Alive(After(cfg, history[..n]), history[n].at), history[..n], history[n]);
    assert history == history[..n] + [history[n]];
  }

  /** The number of addresses that a call must report: those seen strictly after the start of its
      window, and its own. */
  ghost function DistinctIps(cfg: Config, history: seq<Visit>, ip: string, now: real): nat {
    |Recent(history, now - cfg.window) + {ip}|
  }

  ghost predicate NextInTime(history: seq<Visit>, now: real) {
    Monotone(history) && (history != [] ==> history[|history| - 1].at <= now)
  }

  lemma CountOfTouched(z: Option<SortedSet>, cfg: Config, history: seq<Visit>, ip: string, now: real)
    requires Above(Alive(z, now), now - cfg.window).Keys == Recent(history, now - cfg.window)
    ensures |Touched(z, cfg, ip, now)| == DistinctIps(cfg, history, ip, now)
  {
    KeysCount(Touched(z, cfg, ip, now));
    assert Touched(z, cfg, ip, now).Keys == Recent(history, now - cfg.window) + {ip};
  }

  lemma AboveIsRecent(cfg: Config, history: seq<Visit>, now: real)
    requires NextInTime(history, now) && (cfg.keyTtl >= cfg.window || cfg.window <= 0.0)
    ensures Above(Alive(After(cfg, history), now), now - cfg.window).Keys == Recent(history, now - cfg.window)
  {
    if cfg.window <= 0.0 {
      NothingIsRecentAfter(history, now - cfg.window);
      ScoresAreNotLater(cfg, history, now);
    } else {
      if history != [] { WindowIsFaithful(cfg, history); }
      AliveIsFaithful(cfg, history, now);
    }
  }

  /** With a clock that does not go back and a TTL of at least the window, the count of every call is
      the number of distinct addresses in its window. */
  lemma CountIsTheNumberOfDistinctIps(cfg: Config, history: seq<Visit>, ip: string, now: real)
    requires NextInTime(history, now) && (cfg.keyTtl >= cfg.window || cfg.window <= 0.0)
    ensures |Touched(After(cfg, history), cfg, ip, now)| == DistinctIps(cfg, history, ip, now)
  {
    assert Above(Alive(After(cfg, history), now), now - cfg.window).Keys == Recent(history, now - cfg.window) by {
      AboveIsRecent(cfg, history, now);
    }
    CountOfTouched(After(cfg, history), cfg, history, ip, now);
  }

  lemma KeysCount(m: map<string, real>)
    ensures |m| == |m.Keys|
  {
  }

  lemma {:induction false} ScoresAreNotLater(cfg: Config, history: seq<Visit>, now: real)
    requires NextInTime(history, now)
    ensures forall ip :: ip in Alive(After(cfg, history), now) ==> Alive(After(cfg, history), now)[ip] <= now
    decreases |history|
  {
    if history != [] {
      var n := |history| - 1;
      ScoresAreNotLater(cfg, history[..n], history[n].at);
    }
  }

  /** The condition is exact: with a shorter TTL than the window there is a run whose count is short. */
  lemma TtlIsUnobservableExactly(cfg: Config)
    ensures (forall history: seq<Visit>, ip: string, now: real | NextInTime(history, now) ::
               |Touched(After(cfg, history), cfg, ip, now)| == DistinctIps(cfg, history, ip, now))
            <==> cfg.keyTtl >= cfg.window || cfg.window <= 0.0
  {
    if cfg.keyTtl >= cfg.window || cfg.window <= 0.0 {
      forall history: seq<Visit>, ip: string, now: real | NextInTime(history, now)
        ensures |Touched(After(cfg, history), cfg, ip, now)| == DistinctIps(cfg, history, ip, now)
      {
        CountIsTheNumberOfDistinctIps(cfg, history, ip, now);
      }
    } else {
      ShortTtlForgets(cfg);
    }
  }

  lemma ShortTtlForgets(cfg: Config)
    requires cfg.keyTtl < cfg.window && cfg.window > 0.0
    ensures exists history: seq<Visit>, ip: string, now: real :: NextInTime(history, now) &&
              |Touched(After(cfg, history), cfg, ip, now)| != DistinctIps(cfg, history, ip, now)
  {
    var now := if cfg.keyTtl > 0.0 then cfg.keyTtl else 0.0;
    var history := [Visit("a", 0.0)];
    assert NextInTime(history, now);
    assert |Touched(After(cfg, history), cfg, "b", now)| == 1 by { OnlyTheNewOne(cfg, now); }
    assert DistinctIps(cfg, history, "b", now) == 2 by { TwoAreRecent(cfg, now); }
  }

  lemma OnlyTheNewOne(cfg: Config, now: real)
    requires now >= cfg.keyTtl
    ensures |Touched(After(cfg, [Visit("a", 0.0)]), cfg, "b", now)| == 1
  {
    var history := [Visit("a", 0.0)];
    assert history[..0] == [];
    assert Touched(After(cfg, history), cfg, "b", now) == map["b" := now];
  }

  lemma TwoAreRecent(cfg: Config, now: real)
    requires now < cfg.window
    ensures DistinctIps(cfg, [Visit("a", 0.0)], "b", now) == 2
  {
    var history := [Visit("a", 0.0)];
    assert history[0].at > now - cfg.window;
    assert Recent(history, now - cfg.window) == {"a"};
    assert "a" != "b" by { assert "a"[0] != "b"[0]; }
    assert {"a"} + {"b"} == {"a", "b"} && |{"a", "b"}| == 2;
  }

  // ---- The pinned fingerprint and the decision ----

  datatype Shown = Shown(fingerprint: string, at: real)

  function PinAfterAll(p: Option<Pin>, cfg: Config, shown: seq<Shown>): Option<Pin> {
    if shown == [] then p
    else
      var n := |shown| - 1;
      PinAfter(PinAfterAll(p, cfg, shown[..n]), cfg, shown[n].fingerprint, shown[n].at)
  }

  /** The first fingerprint stays pinned for `keyTtl` seconds, whatever is shown meanwhile; during that
      time a request is flagged exactly when it shows another one. */
  lemma {:induction false} FirstFingerprintIsPinned(cfg: Config, first: Shown, shown: seq<Shown>, later: Shown)
    requires first.fingerprint != "" && later.at < first.at + cfg.keyTtl
    requires forall i :: 0 <= i < |shown| ==> shown[i].at < first.at + cfg.keyTtl
    ensures var pin := PinAfter(None, cfg, first.fingerprint, first.at);
            && PinAfterAll(pin, cfg, shown) == pin
            && (Mismatch(PinAfterAll(pin, cfg, shown), later.fingerprint, later.at)
                <==> later.fingerprint != "" && later.fingerprint != first.fingerprint)
    decreases |shown|
  {
    if shown != [] { FirstFingerprintIsPinned(cfg, first, shown[..|shown| - 1], later); }
  }

  /** Once it has expired the next one shown is not flagged and is pinned in its place; showing none is never
      flagged and changes nothing. */
  lemma NextFingerprintIsPinned(cfg: Config, first: Shown, shown: seq<Shown>, later: Shown)
    requires first.fingerprint != "" && cfg.keyTtl > 0.0 && later.at >= first.at + cfg.keyTtl
    requires forall i :: 0 <= i < |shown| ==> shown[i].at < first.at + cfg.keyTtl
    ensures var pin := PinAfterAll(PinAfter(None, cfg, first.fingerprint, first.at), cfg, shown);
            var next := PinAfterAll(PinAfter(None, cfg, first.fingerprint, first.at), cfg, shown + [later]);
            && !Mismatch(pin, later.fingerprint, later.at)
            && (if later.fingerprint == "" then next == pin
                else Pinned(next, later.at) == Some(later.fingerprint) && next.value.expiresAt == later.at + cfg.keyTtl)
  {
    FirstFingerprintIsPinned(cfg, first, shown, first);
    assert (shown + [later])[..|shown|] == shown;
  }

  function Severity(d: Decision): nat {
    match d
    case Allow => 0
    case StepUp => 1
    case Deny => 2
  }

  /** Each signal adds its own risk and nothing else, whatever the others are; without a signal there is no
      risk. */
  lemma EachSignalAddsItsRisk(cfg: Config, mismatch: bool, few: nat, many: nat, count: nat, travel: Travel)
    requires few <= cfg.threshold < many
    ensures RawScore(cfg, false, few, Unremarkable) == 0.0
    ensures RawScore(cfg, true, count, travel) == RawScore(cfg, false, count, travel) + cfg.riskDevice
    ensures RawScore(cfg, mismatch, many, travel) == RawScore(cfg, mismatch, few, travel) + cfg.riskIps
    ensures RawScore(cfg, mismatch, count, CountryChange) == RawScore(cfg, mismatch, count, Unremarkable) + cfg.riskGeo
    ensures RawScore(cfg, mismatch, count, ImpossibleTravel) == RawScore(cfg, mismatch, count, Unremarkable) + cfg.riskTravel
  {
  }

  /** The score is the nearest number of whole thousandths, capped at 1. */
  lemma ScoreIsNearest(raw: real)
    ensures raw >= 1.0 ==> Score(raw) == 1.0
    ensures raw <= 1.0 ==> -0.0005 <= Score(raw) - raw <= 0.0005 && (Score(raw) * 1000.0).Floor as real == Score(raw) * 1000.0
  {
    var t := raw * 1000.0;
    if raw >= 1.0 { assert t.Floor >= 1000; }
  }

  /** Impossible travel is always denied.  Otherwise a score below the first threshold allows the request,
      and one above the second denies it. */
  lemma DecisionMeans(cfg: Config, mismatch: bool, count: nat, travel: Travel)
    ensures var (score, decision) := (Score(RawScore(cfg, mismatch, count, travel)), Decide(cfg, mismatch, count, travel));
            && (decision == Allow <==> travel != ImpossibleTravel && score < cfg.allowThreshold)
            && (decision == StepUp <==>
                  travel != ImpossibleTravel && cfg.allowThreshold <= score && score <= cfg.stepUpThreshold)
  {
  }

  /** The numbers that the source ships with. */
  function DefaultConfig(): Config {
    Config(300.0, 3, (86400 * 30) as real, 0.6, 0.5, 0.4, 0.3, 0.4, 0.7)
  }

  lemma WholeThousandths(n: int)
    requires n <= 1000
    ensures Score(n as real / 1000.0) == n as real / 1000.0
  {
    assert n as real / 1000.0 * 1000.0 == n as real;
  }

  /** With these numbers: a request without signals is allowed, and so is one from another country; another
      device, or more than three addresses, or another device in another country asks for a second factor;
      any other combination is denied, and every impossible journey. */
  lemma DefaultDecisions(mismatch: bool, count: nat, travel: Travel)
    ensures var cfg := DefaultConfig();
            var crowded := count > 3;
            Decide(cfg, mismatch, count, travel)
            == if travel == ImpossibleTravel || (crowded && (mismatch || travel == CountryChange)) then Deny
               else if mismatch || crowded then StepUp else Allow
  {
    WholeThousandths(300);
    WholeThousandths(400);
    WholeThousandths(500);
    WholeThousandths(700);
    WholeThousandths(800);
    WholeThousandths(900);
    WholeThousandths(0);
    ScoreIsNearest(1.2);
  }

  lemma ScoreIsMonotone(x: real, y: real)
    requires x <= y
    ensures Score(x) <= Score(y) <= 1.0
  {
    var a, b := x * 1000.0, y * 1000.0;
    assert a.Floor <= b.Floor;
  }

  /** With risks that are not negative, a further signal never leads to a milder decision: not another
      device, not more addresses, not a travel signal. */
  lemma SignalsOnlyTighten(cfg: Config, mismatch: bool, count: nat, more: nat, travel: Travel)
    requires cfg.riskTravel >= 0.0 && cfg.riskIps >= 0.0 && cfg.riskDevice >= 0.0 && cfg.riskGeo >= 0.0
    requires count <= more
    ensures Severity(Decide(cfg, mismatch, count, Unremarkable)) <= Severity(Decide(cfg, true, more, travel))
    ensures Severity(Decide(cfg, mismatch, count, travel)) <= Severity(Decide(cfg, true, more, travel))
  {
    ScoreIsMonotone(RawScore(cfg, mismatch, count, Unremarkable), RawScore(cfg, true, more, travel));
    ScoreIsMonotone(RawScore(cfg, mismatch, count, travel), RawScore(cfg, true, more, travel));
  }
}
