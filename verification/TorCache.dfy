/** The Tor exit list with its cache of negative answers.

    The parser of addresses is a parameter; the clock is read once in a check and is a real number. */
module TorCache {
  import opened Options

  type Parser = string -> Option<nat>

  /** `interval` is at least 1, as the constructor makes it. */
  datatype Config = Config(ttl: real, interval: nat) {
    ghost predicate Valid() { interval >= 1 }
  }

  datatype State = State(ips: set<nat>, cache: map<string, real>, checks: nat)

  const START := State({}, map[], 0)

  // ---- Specification ----

  function Live(cache: map<string, real>, now: real): map<string, real> {
    map ip | ip in cache && cache[ip] > now :: cache[ip]
  }

  predicate Cached(s: State, ip: string, now: real) {
    ip in s.cache && s.cache[ip] > now
  }

  function Cleaned(s: State, cfg: Config, now: real): State
    requires cfg.Valid()
  {
    if s.checks % cfg.interval != 0 then s else s.(cache := Live(s.cache, now))
  }

  function Answer(s: State, parse: Parser, ip: string, now: real): bool {
    ip != "" && !Cached(s, ip, now) && parse(ip).Some? && parse(ip).value in s.ips
  }

  /** A miss in the list is remembered for `ttl`. */
  function Remembered(s: State, cfg: Config, parse: Parser, ip: string, now: real): State {
    if Cached(s, ip, now) || parse(ip).None? || parse(ip).value in s.ips then s
    else s.(cache := s.cache[ip := now + cfg.ttl])
  }

  /** The state after a check; `cleaning` tells whether the periodic cleanup is on. */
  function AfterCheck(s: State, cfg: Config, parse: Parser, ip: string, now: real, cleaning: bool): State
    requires cfg.Valid()
  {
    if ip == "" then s
    else
      var counted := s.(checks := s.checks + 1);
      Remembered(if cleaning then Cleaned(counted, cfg, now) else counted, cfg, parse, ip, now)
  }

  predicate AllParse(list: seq<string>, parse: Parser) {
    forall i :: 0 <= i < |list| ==> parse(list[i]).Some?
  }

  function Parsed(list: seq<string>, parse: Parser): set<nat>
    requires AllParse(list, parse)
  {
    set i | 0 <= i < |list| :: parse(list[i]).value
  }

  /** A refresh replaces the whole list, or nothing when the download fails or one entry does not parse. */
  function AfterRefresh(s: State, parse: Parser, list: Option<seq<string>>): State {
    if list.Some? && AllParse(list.value, parse) then s.(ips := Parsed(list.value, parse)) else s
  }

  // ---- The class ----

  class TorExitBlocker {
    const ttl: real
    const interval: nat
    const parse: Parser
    var ips: set<nat>
    var negativeCache: map<string, real>
    var checks: nat

    constructor (ttl: real, cleanupInterval: int, parse: Parser)
      ensures this.ttl == ttl && this.parse == parse && interval >= 1
      ensures cleanupInterval >= 1 ==> interval == cleanupInterval
      ensures Contents() == START
    {
      this.ttl, this.parse := ttl, parse;
      interval := if cleanupInterval > 1 then cleanupInterval else 1;
      ips, negativeCache, checks := {}, map[], 0;
    }

    ghost predicate Valid() { interval >= 1 }

    ghost function Contents(): State
      reads this
    {
      State(ips, negativeCache, checks)
    }

    ghost function Settings(): Config { Config(ttl, interval) }

    method CleanupNegativeCache(now: real)
      requires Valid()
      modifies this`negativeCache
      ensures Contents() == Cleaned(old(Contents()), Settings(), now)
    {
      if checks % interval != 0 { return; }
      var expired := set ip | ip in negativeCache && negativeCache[ip] <= now;
      negativeCache := negativeCache - expired;
    }

    method IsTorIp(ip: string, now: real) returns (r: bool)
      requires Valid()
      modifies this
      ensures Contents() == AfterCheck(old(Contents()), Settings(), parse, ip, now, true)
      ensures r == Answer(old(Contents()), parse, ip, now)
    {
      if ip == "" { return false; }
      checks := checks + 1;
      CleanupNegativeCache(now);
      if ip in negativeCache && negativeCache[ip] > now { return false; }
      var address := parse(ip);
      if address.None? { return false; }
      if address.value in ips { return true; }
      negativeCache := negativeCache[ip := now + ttl];
      return false;
    }

    method RefreshOnce(list: Option<seq<string>>)
      modifies this`ips
      ensures Contents() == AfterRefresh(old(Contents()), parse, list)
    {
      if list.None? { return; }
      var fetched: set<nat> := {};
      for n := 0 to |list.value|
        invariant ips == old(ips) && AllParse(list.value[..n], parse)
        invariant fetched == Parsed(list.value[..n], parse)
      {
        var address := parse(list.value[n]);
        if address.None? {
          assert !AllParse(list.value, parse);
          return;
        }
        ParsedNext(list.value, parse, n);
        fetched := fetched + {address.value};
      }
      assert list.value[..|list.value|] == list.value;
      ips := fetched;
    }
  }

  lemma ParsedNext(list: seq<string>, parse: Parser, n: nat)
    requires n < |list| && AllParse(list[..n], parse) && parse(list[n]).Some?
    ensures AllParse(list[..n + 1], parse)
    ensures Parsed(list[..n + 1], parse) == Parsed(list[..n], parse) + {parse(list[n]).value}
  {
    var next := list[..n + 1];
    assert forall i :: 0 <= i < n ==> next[i] == list[..n][i];
    assert next[n] == list[n];
    forall a | a in Parsed(list[..n], parse) ensures a in Parsed(next, parse) {
      var i :| 0 <= i < n && a == parse(list[..n][i]).value;
      assert a == parse(next[i]).value;
    }
    forall a | a in Parsed(next, parse) ensures a in Parsed(list[..n], parse) + {parse(list[n]).value} {
      var i :| 0 <= i < n + 1 && a == parse(next[i]).value;
      if i < n { assert a == parse(list[..n][i]).value; }
    }
  }

  // ---- Runs ----

  datatype Event = Check(ip: string, now: real) | Refresh(list: Option<seq<string>>, now: real)

  function Next(s: State, cfg: Config, parse: Parser, e: Event, cleaning: bool): State
    requires cfg.Valid()
  {
    match e
    case Check(ip, now) => AfterCheck(s, cfg, parse, ip, now, cleaning)
    case Refresh(list, _) => AfterRefresh(s, parse, list)
  }

  function Run(cfg: Config, parse: Parser, events: seq<Event>, cleaning: bool): State
    requires cfg.Valid()
  {
    if events == [] then START
    else Next(Run(cfg, parse, events[..|events| - 1], cleaning), cfg, parse, events[|events| - 1], cleaning)
  }

  /** The list of the last download in which every entry parsed; nothing before the first one. */
  function LastList(parse: Parser, events: seq<Event>): set<nat> {
    if events == [] then {}
    else
      var e := events[|events| - 1];
      if e.Refresh? && e.list.Some? && AllParse(e.list.value, parse) then Parsed(e.list.value, parse)
      else LastList(parse, events[..|events| - 1])
  }

  lemma {:induction false} ListIsTheLastOne(cfg: Config, parse: Parser, events: seq<Event>, cleaning: bool)
    requires cfg.Valid()
    ensures Run(cfg, parse, events, cleaning).ips == LastList(parse, events)
    decreases |events|
  {
    if events != [] { ListIsTheLastOne(cfg, parse, events[..|events| - 1], cleaning); }
  }

  /** In every run Tor is answered only for an address of the last list that was downloaded and parsed as a
      whole, whatever checks, failed downloads and cleanups came before. */
  lemma TorIsAnsweredOnlyForTheLastList(cfg: Config, parse: Parser, events: seq<Event>, ip: string, now: real)
    requires cfg.Valid() && Answer(Run(cfg, parse, events, true), parse, ip, now)
    ensures parse(ip).Some? && parse(ip).value in LastList(parse, events)
  {
    ListIsTheLastOne(cfg, parse, events, true);
  }

  /** Event i is a check of `ip` that found its address missing and set the expiry. */
  ghost predicate Missed(cfg: Config, parse: Parser, events: seq<Event>, cleaning: bool, i: nat, ip: string, expiry: real)
    requires cfg.Valid()
  {
    && i < |events| && events[i].Check? && events[i].ip == ip && events[i].now + cfg.ttl == expiry
    && parse(ip).Some? && parse(ip).value !in Run(cfg, parse, events[..i], cleaning).ips
  }

  lemma MissedExtends(cfg: Config, parse: Parser, events: seq<Event>, e: Event, cleaning: bool, i: nat, ip: string,
                      expiry: real)
    requires cfg.Valid() && Missed(cfg, parse, events, cleaning, i, ip, expiry)
    ensures Missed(cfg, parse, events + [e], cleaning, i, ip, expiry)
  {
    assert (events + [e])[..i] == events[..i];
  }

  /** Behind every entry of the cache there is a miss. */
  lemma {:induction false} EntriesAreMisses(cfg: Config, parse: Parser, events: seq<Event>, cleaning: bool, ip: string)
    returns (i: nat)
    requires cfg.Valid() && ip in Run(cfg, parse, events, cleaning).cache
    ensures Missed(cfg, parse, events, cleaning, i, ip, Run(cfg, parse, events, cleaning).cache[ip])
    decreases |events|
  {
    var n := |events| - 1;
    var before, after := Run(cfg, parse, events[..n], cleaning), Run(cfg, parse, events, cleaning);
    assert events == events[..n] + [events[n]];
    if ip in before.cache && after.cache[ip] == before.cache[ip] {
      i := EntriesAreMisses(cfg, parse, events[..n], cleaning, ip);
      MissedExtends(cfg, parse, events[..n], events[n], cleaning, i, ip, after.cache[ip]);
    } else {
      i := n;
    }
  }

  /** The address of `ip` was in the list at every check of `ip` later than `since`. */
  ghost predicate ListedSince(cfg: Config, parse: Parser, events: seq<Event>, ip: string, since: real)
    requires cfg.Valid()
  {
    forall i: nat | i < |events| && events[i].Check? && events[i].ip == ip && events[i].now > since ::
      parse(ip).Some? && parse(ip).value in Run(cfg, parse, events[..i], true).ips
  }

  /** Staleness is bounded by the ttl: an address that is in the list, and was at every check of it in
      the last `ttl` seconds, is answered as Tor. */
  lemma ListedForTtlMeansTrue(cfg: Config, parse: Parser, events: seq<Event>, ip: string, now: real)
    requires cfg.Valid() && ip != "" && parse(ip).Some?
    requires parse(ip).value in Run(cfg, parse, events, true).ips
    requires ListedSince(cfg, parse, events, ip, now - cfg.ttl)
    ensures Answer(Run(cfg, parse, events, true), parse, ip, now)
  {
    if Cached(Run(cfg, parse, events, true), ip, now) {
      var i := EntriesAreMisses(cfg, parse, events, true, ip);
      assert false;
    }
  }

  /** The bound is exact: after a miss, an address that enters the list is answered as Tor from `ttl`
      seconds after the miss on, and not before. */
  lemma StaleExactlyForTtl(s: State, cfg: Config, parse: Parser, ip: string, t0: real, list: seq<string>, t: real)
    requires cfg.Valid() && ip != "" && parse(ip).Some? && AllParse(list, parse)
    requires !Cached(s, ip, t0) && parse(ip).value !in s.ips && parse(ip).value in Parsed(list, parse)
    ensures !Answer(s, parse, ip, t0)
    ensures var missed := AfterCheck(s, cfg, parse, ip, t0, true);
            Answer(AfterRefresh(missed, parse, Some(list)), parse, ip, t) <==> t >= t0 + cfg.ttl
  {
  }

  // ---- Cleanup is invisible ----

  ghost predicate Monotone(events: seq<Event>) {
    forall i, j :: 0 <= i < j < |events| ==> events[i].now <= events[j].now
  }

  /** Nothing that happens from `now` on tells the two apart. */
  ghost predicate Alike(a: State, b: State, now: real) {
    && a.ips == b.ips && a.checks == b.checks
    && (forall ip :: Cached(a, ip, now) <==> Cached(b, ip, now))
    && (forall ip :: Cached(a, ip, now) ==> a.cache[ip] == b.cache[ip])
  }

  lemma AlikeLater(a: State, b: State, now: real, later: real)
    requires Alike(a, b, now) && now <= later
    ensures Alike(a, b, later)
  {
    forall ip ensures Cached(a, ip, later) <==> Cached(b, ip, later) {
      assert Cached(a, ip, now) <==> Cached(b, ip, now);
    }
    forall ip | Cached(a, ip, later) ensures a.cache[ip] == b.cache[ip] {
      assert Cached(a, ip, now);
    }
  }

  lemma CleaningKeepsAlike(a: State, b: State, cfg: Config, now: real)
    requires cfg.Valid() && Alike(a, b, now)
    ensures Alike(Cleaned(a, cfg, now), b, now)
  {
    var a' := Cleaned(a, cfg, now);
    forall ip ensures Cached(a', ip, now) <==> Cached(b, ip, now) {
      assert Cached(a, ip, now) <==> Cached(b, ip, now);
    }
    forall ip | Cached(a', ip, now) ensures a'.cache[ip] == b.cache[ip] {
      assert Cached(a, ip, now);
    }
  }

  lemma CountingKeepsAlike(a: State, b: State, now: real)
    requires Alike(a, b, now)
    ensures Alike(a.(checks := a.checks + 1), b.(checks := b.checks + 1), now)
  {
    var a', b' := a.(checks := a.checks + 1), b.(checks := b.checks + 1);
    forall ip ensures Cached(a', ip, now) <==> Cached(b', ip, now) {
      assert Cached(a, ip, now) <==> Cached(b, ip, now);
    }
    forall ip | Cached(a', ip, now) ensures a'.cache[ip] == b'.cache[ip] {
      assert Cached(a, ip, now);
    }
  }

  lemma CheckKeepsAlike(a: State, b: State, cfg: Config, parse: Parser, ip: string, now: real)
    requires cfg.Valid() && Alike(a, b, now)
    ensures Alike(AfterCheck(a, cfg, parse, ip, now, true), AfterCheck(b, cfg, parse, ip, now, false), now)
  {
    if ip != "" {
      var a1, b1 := a.(checks := a.checks + 1), b.(checks := b.checks + 1);
      CountingKeepsAlike(a, b, now);
      CleaningKeepsAlike(a1, b1, cfg, now);
      RememberKeepsAlike(Cleaned(a1, cfg, now), b1, cfg, parse, ip, now);
    }
  }

  lemma RefreshKeepsAlike(a: State, b: State, parse: Parser, list: Option<seq<string>>, now: real)
    requires Alike(a, b, now)
    ensures Alike(AfterRefresh(a, parse, list), AfterRefresh(b, parse, list), now)
  {
    var a', b' := AfterRefresh(a, parse, list), AfterRefresh(b, parse, list);
    forall ip ensures Cached(a', ip, now) <==> Cached(b', ip, now) {
      assert Cached(a, ip, now) <==> Cached(b, ip, now);
    }
    forall ip | Cached(a', ip, now) ensures a'.cache[ip] == b'.cache[ip] {
      assert Cached(a, ip, now);
    }
  }

  lemma NextKeepsAlike(a: State, b: State, cfg: Config, parse: Parser, e: Event)
    requires cfg.Valid() && Alike(a, b, e.now)
    ensures Alike(Next(a, cfg, parse, e, true), Next(b, cfg, parse, e, false), e.now)
  {
    match e
    case Check(ip, now) => CheckKeepsAlike(a, b, cfg, parse, ip, now);
    case Refresh(list, now) => RefreshKeepsAlike(a, b, parse, list, now);
  }

  lemma RememberKeepsAlike(a: State, b: State, cfg: Config, parse: Parser, ip: string, now: real)
    requires Alike(a, b, now)
    ensures Alike(Remembered(a, cfg, parse, ip, now), Remembered(b, cfg, parse, ip, now), now)
  {
    var a', b' := Remembered(a, cfg, parse, ip, now), Remembered(b, cfg, parse, ip, now);
    assert Cached(a, ip, now) <==> Cached(b, ip, now);
    forall k ensures Cached(a', k, now) <==> Cached(b', k, now) {
      assert Cached(a, k, now) <==> Cached(b, k, now);
    }
    forall k | Cached(a', k, now) ensures a'.cache[k] == b'.cache[k] {
      if k != ip || a' == a { assert Cached(a, k, now); }
    }
  }

  lemma {:induction false} RunsAreAlike(cfg: Config, parse: Parser, events: seq<Event>, now: real)
    requires cfg.Valid() && Monotone(events) && (events != [] ==> events[|events| - 1].now <= now)
    ensures Alike(Run(cfg, parse, events, true), Run(cfg, parse, events, false), now)
    decreases |events|
  {
    if events != [] {
      var n := |events| - 1;
      RunsAreAlike(cfg, parse, events[..n], events[n].now);
      var a, b := Run(cfg, parse, events[..n], true), Run(cfg, parse, events[..n], false);
      NextKeepsAlike(a, b, cfg, parse, events[n]);
      AlikeLater(Next(a, cfg, parse, events[n], true), Next(b, cfg, parse, events[n], false), events[n].now, now);
    }
  }

  /** With a clock that does not go back, every answer is the one that a cache which is never cleaned
      would give. */
  lemma CleanupNeverChangesAnAnswer(cfg: Config, parse: Parser, events: seq<Event>, ip: string, now: real)
    requires cfg.Valid() && Monotone(events) && (events != [] ==> events[|events| - 1].now <= now)
    ensures Answer(Run(cfg, parse, events, true), parse, ip, now) == Answer(Run(cfg, parse, events, false), parse, ip, now)
  {
    RunsAreAlike(cfg, parse, events, now);
    assert Cached(Run(cfg, parse, events, true), ip, now) <==> Cached(Run(cfg, parse, events, false), ip, now);
  }

  // ---- When the cache is cleaned ----

  /** The checks of a run that counted: those of an address that is not empty. */
  function Checks(events: seq<Event>): nat {
    if events == [] then 0
    else
      var e := events[|events| - 1];
      Checks(events[..|events| - 1]) + (if e.Check? && e.ip != "" then 1 else 0)
  }

  lemma {:induction false} ChecksAreCounted(cfg: Config, parse: Parser, events: seq<Event>, cleaning: bool)
    requires cfg.Valid()
    ensures Run(cfg, parse, events, cleaning).checks == Checks(events)
    decreases |events|
  {
    if events != [] { ChecksAreCounted(cfg, parse, events[..|events| - 1], cleaning); }
  }

  /** Every `interval`-th check of a run leaves no expired entry behind but its own; the others leave every
      entry but their own as it was. */
  lemma EveryIntervalthCheckCleans(cfg: Config, parse: Parser, events: seq<Event>, ip: string, now: real)
    requires cfg.Valid() && ip != ""
    ensures var (before, after) := (Run(cfg, parse, events, true), Run(cfg, parse, events + [Check(ip, now)], true));
            forall other :: other != ip ==>
              (other in after.cache
               <==> other in before.cache && (before.cache[other] > now || (Checks(events) + 1) % cfg.interval != 0))
    ensures var (before, after) := (Run(cfg, parse, events, true), Run(cfg, parse, events + [Check(ip, now)], true));
            forall other :: other != ip && other in after.cache ==> after.cache[other] == before.cache[other]
  {
    ChecksAreCounted(cfg, parse, events, true);
    assert (events + [Check(ip, now)])[..|events|] == events;
  }

  /** A check of the empty address answers no and leaves no trace. */
  lemma EmptyAddressLeavesNoTrace(cfg: Config, parse: Parser, events: seq<Event>, now: real)
    requires cfg.Valid()
    ensures !Answer(Run(cfg, parse, events, true), parse, "", now)
    ensures Run(cfg, parse, events + [Check("", now)], true) == Run(cfg, parse, events, true)
  {
    assert (events + [Check("", now)])[..|events|] == events;
  }
}
