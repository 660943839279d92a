/** The cost ledger of a session.

    Amounts are counted in units of 10^-8 dollars, the precision kept by the ledger: a cost that comes
    in is any real number of units, a stored amount is a whole number of them.  Calls are sequential and
    no key expires between them. */
module CostLedger {
  // ---- Rounding ----

  /** Decimal's ROUND_HALF_UP: to the nearest whole unit, halves away from zero. */
  function RoundCost(v: real): int {
    if v >= 0.0 then (v + 0.5).Floor else -((-v + 0.5).Floor)
  }

  ghost predicate Half(v: real) {
    v - v.Floor as real == 0.5
  }

  lemma RoundIsNearest(v: real)
    ensures -0.5 <= RoundCost(v) as real - v <= 0.5
    ensures Half(v) ==> RoundCost(v) as real == if v > 0.0 then v + 0.5 else v - 0.5
    ensures v >= 0.0 ==> RoundCost(v) >= 0
  {
    if Half(v) { HalfRounds(v); }
  }

  lemma FloorIs(x: real, n: int)
    requires x == n as real
    ensures x.Floor == n
  {
  }

  lemma HalfRounds(v: real)
    requires Half(v)
    ensures RoundCost(v) as real == if v > 0.0 then v + 0.5 else v - 0.5
  {
    var f := v.Floor;
    assert v == f as real + 0.5;
    if v >= 0.0 {
      FloorIs(v + 0.5, f + 1);
    } else {
      FloorIs(-v + 0.5, -f);
    }
  }

  lemma ShiftedHalf(k: int, v: real)
    ensures Half(k as real + v) <==> Half(v)
  {
    assert (k as real + v).Floor == k + v.Floor;
  }

  /** Rounding after adding to a stored amount is adding the rounded cost, except when the cost lies
      halfway between two units and its sign is not the sign of the new amount. */
  lemma RoundingShiftsExactly(k: int, v: real)
    ensures RoundCost(k as real + v) == k + RoundCost(v) <==> !Half(v) || (v > 0.0 <==> k as real + v > 0.0)
  {
    ShiftedHalf(k, v);
    if Half(v) {
      HalfRounds(v);
      HalfRounds(k as real + v);
    } else {
      NearestIsUnique(v, RoundCost(v), RoundCost(k as real + v) - k);
    }
  }

  lemma NearestIsUnique(v: real, a: int, b: int)
    requires !Half(v) && -0.5 <= a as real - v <= 0.5 && -0.5 <= b as real - v <= 0.5
    ensures a == b
  {
    if a < b { TwoNearestMeansHalf(v, a, b); }
    if b < a { TwoNearestMeansHalf(v, b, a); }
  }

  lemma TwoNearestMeansHalf(v: real, a: int, b: int)
    requires a < b && -0.5 <= a as real - v <= 0.5 && -0.5 <= b as real - v <= 0.5
    ensures Half(v)
  {
    assert v == a as real + 0.5;
    assert v.Floor == a;
  }

  // ---- The ledger ----

  /** Token counts; a count missing from the source's dictionary is 0. */
  datatype Usage = Usage(total: int, prompt: int, completion: int, reasoning: int, cached: int)

  datatype Tokens = Tokens(total: int, prompt: int, completion: int, reasoning: int)

  function Plus(t: Tokens, u: Usage): Tokens {
    Tokens(t.total + u.total, t.prompt + u.prompt, t.completion + u.completion, t.reasoning + u.reasoning)
  }

  const NO_TOKENS := Tokens(0, 0, 0, 0)

  function Positive(n: int): int { if n > 0 then n else 0 }

  /** An entry of `by_model`, and of `by_provider` with its total tokens only. */
  datatype Tally = Tally(cost: int, requests: nat, tokens: Tokens)

  datatype Provider = Provider(cost: int, requests: nat, tokens: int, freeTier: bool)

  datatype Aggregate = Aggregate(
    totalCost: int, totalRequests: nat, tokens: Tokens, cached: int,
    byModel: map<string, Tally>, byProvider: map<string, Provider>)

  const EMPTY := Aggregate(0, 0, NO_TOKENS, 0, map[], map[])

  datatype Entry = Entry(timestamp: int, cost: int, usage: Usage, model: string, provider: string)

  datatype Call = Call(timestamp: int, cost: real, usage: Usage, model: string, provider: string)

  const HISTORY_MAX_ENTRIES := 1000

  /** Counts that are not positive are left out of the history. */
  function EntryOf(c: Call): Entry {
    Entry(c.timestamp, RoundCost(c.cost),
          Usage(Positive(c.usage.total), Positive(c.usage.prompt), Positive(c.usage.completion),
                Positive(c.usage.reasoning), Positive(c.usage.cached)), c.model, c.provider)
  }

  function TallyOf(byModel: map<string, Tally>, model: string): Tally {
    if model in byModel then byModel[model] else Tally(0, 0, NO_TOKENS)
  }

  function ProviderOf(byProvider: map<string, Provider>, c: Call): Provider {
    if c.provider in byProvider then byProvider[c.provider] else Provider(0, 0, 0, c.cost == 0.0)
  }

  function AddToTally(t: Tally, c: Call): Tally {
    Tally(RoundCost(t.cost as real + c.cost), t.requests + 1, Plus(t.tokens, c.usage))
  }

  function AddToProvider(p: Provider, c: Call): Provider {
    Provider(RoundCost(p.cost as real + c.cost), p.requests + 1, p.tokens + c.usage.total, p.freeTier)
  }

  function Add(a: Aggregate, c: Call): Aggregate {
    Aggregate(
      RoundCost(a.totalCost as real + c.cost),
      a.totalRequests + 1,
      Plus(a.tokens, c.usage),
      a.cached + c.usage.cached,
      a.byModel[c.model := AddToTally(TallyOf(a.byModel, c.model), c)],
      a.byProvider[c.provider := AddToProvider(ProviderOf(a.byProvider, c), c)])
  }

  function Newest<T>(list: seq<T>, n: nat): (kept: seq<T>)
    ensures |kept| <= n && kept <= list
  {
    if |list| <= n then list else list[..n]
  }

  /** The ledger of one session. */
  class SessionLedger {
    const sessionId: string
    var data: Aggregate
    var history: seq<Entry>

    constructor (sessionId: string)
      ensures this.sessionId == sessionId && data == EMPTY && history == []
    {
      this.sessionId := sessionId;
      data, history := EMPTY, [];
    }

    method AddTotals(c: Call)
      modifies this`data
      ensures data == old(data).(
                        totalCost := RoundCost(old(data).totalCost as real + c.cost),
                        totalRequests := old(data).totalRequests + 1,
                        tokens := Plus(old(data).tokens, c.usage),
                        cached := old(data).cached + c.usage.cached)
    {
      data := data.(totalCost := RoundCost(data.totalCost as real + c.cost));
      data := data.(totalRequests := data.totalRequests + 1);
      data := data.(tokens := Plus(data.tokens, c.usage));
      data := data.(cached := data.cached + c.usage.cached);
    }

    method AddToModel(c: Call)
      modifies this`data
      ensures data == old(data).(byModel := old(data).byModel[c.model := AddToTally(TallyOf(old(data).byModel, c.model), c)])
    {
      if c.model !in data.byModel {
        data := data.(byModel := data.byModel[c.model := Tally(0, 0, NO_TOKENS)]);
      }
      data := data.(byModel := data.byModel[c.model := AddToTally(data.byModel[c.model], c)]);
    }

    method AddToProviderEntry(c: Call)
      modifies this`data
      ensures data == old(data).(
                        byProvider := old(data).byProvider[c.provider := AddToProvider(ProviderOf(old(data).byProvider, c), c)])
    {
      if c.provider !in data.byProvider {
        data := data.(byProvider := data.byProvider[c.provider := Provider(0, 0, 0, c.cost == 0.0)]);
      }
      data := data.(byProvider := data.byProvider[c.provider := AddToProvider(data.byProvider[c.provider], c)]);
    }

    method AddCost(c: Call) returns (ok: bool)
      modifies this
      ensures ok == (sessionId != "")
      ensures data == if ok then Add(old(data), c) else old(data)
      ensures history == if ok then Newest([EntryOf(c)] + old(history), HISTORY_MAX_ENTRIES) else old(history)
    {
      if sessionId == "" { return false; }
      var entry := EntryOf(c);
      AddTotals(c);
      AddToModel(c);
      AddToProviderEntry(c);
      history := [entry] + history;
      history := Newest(history, HISTORY_MAX_ENTRIES);
      return true;
    }

    /** LRANGE history 0 limit-1, where a negative end counts from the tail. */
    method GetHistory(limit: int) returns (entries: seq<Entry>)
      ensures entries == history[..Returned(|history|, limit)]
    {
      var stop := limit - 1;
      if stop < 0 { stop := |history| + stop; }
      if stop < 0 { return []; }
      return if stop + 1 <= |history| then history[..stop + 1] else history;
    }
  }

  /** How many entries of a history of length `n` come back for a limit. */
  function Returned(n: nat, limit: int): (r: nat)
    ensures r <= n
  {
    if limit >= 1 then (if limit <= n then limit else n) else if n + limit >= 0 then n + limit else 0
  }

  /** The documented maximum is kept for every positive limit; for limit 0 and below, where all but the oldest
      `-limit` entries come back, only while there are at most that many. */
  lemma LimitIsKeptExactly(n: nat, limit: int)
    ensures Returned(n, limit) <= (if limit > 0 then limit else 0) <==> limit >= 1 || n <= -limit
    ensures limit >= 1 ==> Returned(n, limit) == n <= limit || Returned(n, limit) == limit < n
    ensures limit <= 0 ==> n - Returned(n, limit) == -limit <= n || Returned(n, limit) == 0 <= -limit - n
  {
  }

  // ---- Sums over the breakdowns ----

  ghost function SumMap<T>(m: map<string, T>, f: T -> int): int {
    if m == map[] then 0 else var k :| k in m; f(m[k]) + SumMap(m - {k}, f)
  }

  lemma {:induction false} SumMapRemove<T>(m: map<string, T>, k: string, f: T -> int)
    requires k in m
    ensures SumMap(m, f) == f(m[k]) + SumMap(m - {k}, f)
    decreases |m|
  {
    var k' :| k' in m && SumMap(m, f) == f(m[k']) + SumMap(m - {k'}, f);
    if k' != k {
      SumMapRemove(m - {k'}, k, f);
      SumMapRemove(m - {k}, k', f);
      assert m - {k'} - {k} == m - {k} - {k'};
    }
  }

  lemma SumMapUpdate<T>(m: map<string, T>, k: string, v: T, f: T -> int)
    ensures SumMap(m[k := v], f) == SumMap(m, f) - (if k in m then f(m[k]) else 0) + f(v)
  {
    SumMapRemove(m[k := v], k, f);
    assert m[k := v] - {k} == m - {k};
    if k in m { SumMapRemove(m, k, f); } else { assert m - {k} == m; }
  }

  /** The ledger after a sequence of calls. */
  function Ledger(calls: seq<Call>): Aggregate {
    if calls == [] then EMPTY else Add(Ledger(calls[..|calls| - 1]), calls[|calls| - 1])
  }

  function History(calls: seq<Call>): seq<Entry> {
    if calls == [] then []
    else Newest([EntryOf(calls[|calls| - 1])] + History(calls[..|calls| - 1]), HISTORY_MAX_ENTRIES)
  }

  function TallyCost(): Tally -> int { (t: Tally) => t.cost }

  function ProviderCost(): Provider -> int { (p: Provider) => p.cost }

  /** What a call adds to a stored amount. */
  function Gain(k: int, cost: real): int {
    RoundCost(k as real + cost) - k
  }

  lemma ModelCostsAfter(a: Aggregate, c: Call)
    ensures SumMap(Add(a, c).byModel, TallyCost())
            == SumMap(a.byModel, TallyCost()) + Gain(TallyOf(a.byModel, c.model).cost, c.cost)
  {
    SumMapUpdate(a.byModel, c.model, AddToTally(TallyOf(a.byModel, c.model), c), TallyCost());
  }

  lemma ProviderCostsAfter(a: Aggregate, c: Call)
    ensures SumMap(Add(a, c).byProvider, ProviderCost())
            == SumMap(a.byProvider, ProviderCost()) + Gain(ProviderOf(a.byProvider, c).cost, c.cost)
  {
    SumMapUpdate(a.byProvider, c.provider, AddToProvider(ProviderOf(a.byProvider, c), c), ProviderCost());
  }

  /** One call keeps the total equal to the sum over the models exactly when its cost is not halfway
      between two units, or moves the total and the entry of the model to the same side of zero. */
  lemma ModelsAgreeExactly(a: Aggregate, c: Call)
    requires SumMap(a.byModel, TallyCost()) == a.totalCost
    ensures var m := TallyOf(a.byModel, c.model).cost;
            SumMap(Add(a, c).byModel, TallyCost()) == Add(a, c).totalCost
            <==> !Half(c.cost) || (a.totalCost as real + c.cost > 0.0 <==> m as real + c.cost > 0.0)
  {
    ModelCostsAfter(a, c);
    GainsAgreeExactly(a.totalCost, TallyOf(a.byModel, c.model).cost, c.cost);
  }

  lemma ProvidersAgreeExactly(a: Aggregate, c: Call)
    requires SumMap(a.byProvider, ProviderCost()) == a.totalCost
    ensures var p := ProviderOf(a.byProvider, c).cost;
            SumMap(Add(a, c).byProvider, ProviderCost()) == Add(a, c).totalCost
            <==> !Half(c.cost) || (a.totalCost as real + c.cost > 0.0 <==> p as real + c.cost > 0.0)
  {
    ProviderCostsAfter(a, c);
    GainsAgreeExactly(a.totalCost, ProviderOf(a.byProvider, c).cost, c.cost);
  }

  lemma GainsAgreeExactly(k: int, m: int, cost: real)
    ensures Gain(k, cost) == Gain(m, cost) <==> !Half(cost) || (k as real + cost > 0.0 <==> m as real + cost > 0.0)
  {
    RoundingShiftsExactly(k, cost);
    RoundingShiftsExactly(m, cost);
    if Half(cost) {
      ShiftedHalf(k, cost);
      ShiftedHalf(m, cost);
      HalfRounds(k as real + cost);
      HalfRounds(m as real + cost);
    }
  }

  // ---- Non-negative costs ----

  ghost predicate NonNegative(calls: seq<Call>) {
    forall i :: 0 <= i < |calls| ==> calls[i].cost >= 0.0
  }

  function SumRounded(calls: seq<Call>): int {
    if calls == [] then 0 else SumRounded(calls[..|calls| - 1]) + RoundCost(calls[|calls| - 1].cost)
  }

  function SumExact(calls: seq<Call>): real {
    if calls == [] then 0.0 else SumExact(calls[..|calls| - 1]) + calls[|calls| - 1].cost
  }

  ghost predicate CostInv(a: Aggregate) {
    && a.totalCost >= 0
    && SumMap(a.byModel, TallyCost()) == a.totalCost == SumMap(a.byProvider, ProviderCost())
    && (forall m :: m in a.byModel ==> a.byModel[m].cost >= 0)
    && (forall p :: p in a.byProvider ==> a.byProvider[p].cost >= 0)
  }

  lemma GainOfNonNegative(k: nat, cost: real)
    requires cost >= 0.0
    ensures Gain(k, cost) == RoundCost(cost) >= 0
  {
    RoundingShiftsExactly(k, cost);
    RoundIsNearest(cost);
  }

  lemma AddKeepsCosts(a: Aggregate, c: Call)
    requires CostInv(a) && c.cost >= 0.0
    ensures CostInv(Add(a, c)) && Add(a, c).totalCost == a.totalCost + RoundCost(c.cost)
  {
    ModelCostsAfter(a, c);
    ProviderCostsAfter(a, c);
    GainOfNonNegative(a.totalCost, c.cost);
    GainOfNonNegative(TallyOf(a.byModel, c.model).cost, c.cost);
    GainOfNonNegative(ProviderOf(a.byProvider, c).cost, c.cost);
  }

  /** With costs that are not negative, the total is the sum over the models, the sum over the providers
      and the sum of the rounded costs, after any sequence of calls. */
  lemma {:induction false} CostsAddUp(calls: seq<Call>)
    requires NonNegative(calls)
    ensures CostInv(Ledger(calls)) && Ledger(calls).totalCost == SumRounded(calls)
    decreases |calls|
  {
    if calls != [] {
      CostsAddUp(calls[..|calls| - 1]);
      AddKeepsCosts(Ledger(calls[..|calls| - 1]), calls[|calls| - 1]);
    }
  }

  lemma {:induction false} RoundedSumIsClose(calls: seq<Call>)
    ensures -0.5 * |calls| as real <= SumRounded(calls) as real - SumExact(calls) <= 0.5 * |calls| as real
    decreases |calls|
  {
    if calls != [] {
      RoundedSumIsClose(calls[..|calls| - 1]);
      RoundIsNearest(calls[|calls| - 1].cost);
    }
  }

  /** The total is within half a unit per call of the exact sum. */
  lemma TotalIsClose(calls: seq<Call>)
    requires NonNegative(calls)
    ensures -0.5 * |calls| as real <= Ledger(calls).totalCost as real - SumExact(calls) <= 0.5 * |calls| as real
  {
    CostsAddUp(calls);
    RoundedSumIsClose(calls);
  }

  /** A negative cost can break the agreement: a unit for one model, then minus half a unit for another. */
  lemma NegativeCostsCanDisagree()
    ensures exists calls :: |calls| == 2 && SumMap(Ledger(calls).byModel, TallyCost()) != Ledger(calls).totalCost
  {
    var usage := Usage(0, 0, 0, 0, 0);
    var first := [Call(0, 1.0, usage, "a", "p")];
    var credit := Call(1, -0.5, usage, "b", "p");
    assert NonNegative(first);
    CostsAddUp(first);
    assert first[..0] == [] && (first + [credit])[..1] == first;
    assert (-0.5).Floor == -1;
    ModelsAgreeExactly(Ledger(first), credit);
    assert SumMap(Ledger(first + [credit]).byModel, TallyCost()) != Ledger(first + [credit]).totalCost;
  }

  // ---- Requests and tokens, for all costs ----

  function TallyRequests(): Tally -> int { (t: Tally) => t.requests }

  function TallyTokens(): Tally -> int { (t: Tally) => t.tokens.total }

  function ProviderRequests(): Provider -> int { (p: Provider) => p.requests }

  function ProviderTokens(): Provider -> int { (p: Provider) => p.tokens }

  /** Requests and tokens of the total are the sums over the models and over the providers. */
  ghost predicate CountInv(a: Aggregate) {
    && SumMap(a.byModel, TallyRequests()) == a.totalRequests == SumMap(a.byProvider, ProviderRequests())
    && SumMap(a.byModel, TallyTokens()) == a.tokens.total == SumMap(a.byProvider, ProviderTokens())
  }

  lemma AddKeepsCounts(a: Aggregate, c: Call)
    requires CountInv(a)
    ensures CountInv(Add(a, c))
  {
    var tally := AddToTally(TallyOf(a.byModel, c.model), c);
    var provider := AddToProvider(ProviderOf(a.byProvider, c), c);
    SumMapUpdate(a.byModel, c.model, tally, TallyRequests());
    SumMapUpdate(a.byModel, c.model, tally, TallyTokens());
    SumMapUpdate(a.byProvider, c.provider, provider, ProviderRequests());
    SumMapUpdate(a.byProvider, c.provider, provider, ProviderTokens());
  }

  lemma {:induction false} CountsAddUp(calls: seq<Call>)
    ensures CountInv(Ledger(calls)) && Ledger(calls).totalRequests == |calls|
    decreases |calls|
  {
    if calls != [] {
      CountsAddUp(calls[..|calls| - 1]);
      AddKeepsCounts(Ledger(calls[..|calls| - 1]), calls[|calls| - 1]);
    }
  }

  // ---- The breakdowns group the calls ----

  function SumOf(calls: seq<Call>, f: Call -> int): int {
    if calls == [] then 0 else SumOf(calls[..|calls| - 1], f) + f(calls[|calls| - 1])
  }

  function TotalCount(c: Call): int { c.usage.total }
  function PromptCount(c: Call): int { c.usage.prompt }
  function CompletionCount(c: Call): int { c.usage.completion }
  function ReasoningCount(c: Call): int { c.usage.reasoning }
  function CachedCount(c: Call): int { c.usage.cached }

  /** The four token counts of some calls, each summed on its own. */
  function TokenSums(calls: seq<Call>): Tokens {
    Tokens(SumOf(calls, TotalCount), SumOf(calls, PromptCount),
           SumOf(calls, CompletionCount), SumOf(calls, ReasoningCount))
  }

  function OfModel(calls: seq<Call>, model: string): seq<Call> {
    if calls == [] then []
    else OfModel(calls[..|calls| - 1], model) + (if calls[|calls| - 1].model == model then [calls[|calls| - 1]] else [])
  }

  function OfProvider(calls: seq<Call>, provider: string): seq<Call> {
    if calls == [] then []
    else
      OfProvider(calls[..|calls| - 1], provider)
      + (if calls[|calls| - 1].provider == provider then [calls[|calls| - 1]] else [])
  }

  lemma SumOfNext(calls: seq<Call>, c: Call, f: Call -> int)
    ensures SumOf(calls + [c], f) == SumOf(calls, f) + f(c)
  {
    assert (calls + [c])[..|calls|] == calls;
  }

  lemma TokenSumsNext(calls: seq<Call>, c: Call)
    ensures TokenSums(calls + [c]) == Plus(TokenSums(calls), c.usage)
  {
    SumOfNext(calls, c, TotalCount);
    SumOfNext(calls, c, PromptCount);
    SumOfNext(calls, c, CompletionCount);
    SumOfNext(calls, c, ReasoningCount);
  }

  lemma SumRoundedNext(calls: seq<Call>, c: Call)
    ensures SumRounded(calls + [c]) == SumRounded(calls) + RoundCost(c.cost)
  {
    assert (calls + [c])[..|calls|] == calls;
  }

  /** The tokens of the total are those of all calls, count by count. */
  lemma {:induction false} TokensAddUp(calls: seq<Call>)
    ensures Ledger(calls).tokens == TokenSums(calls)
    ensures Ledger(calls).cached == SumOf(calls, CachedCount)
    decreases |calls|
  {
    if calls != [] {
      var n := |calls| - 1;
      TokensAddUp(calls[..n]);
      TokenSumsNext(calls[..n], calls[n]);
      assert calls == calls[..n] + [calls[n]];
    }
  }

  /** The entry of a model counts its own calls; there is one exactly for the models called. */
  lemma {:induction false} ModelEntryCountsItsCalls(calls: seq<Call>, model: string)
    ensures var own := OfModel(calls, model);
            var entry := TallyOf(Ledger(calls).byModel, model);
            && (model in Ledger(calls).byModel <==> own != [])
            && entry.requests == |own| && entry.tokens == TokenSums(own)
    decreases |calls|
  {
    if calls != [] {
      var n := |calls| - 1;
      ModelEntryCountsItsCalls(calls[..n], model);
      TokenSumsNext(OfModel(calls[..n], model), calls[n]);
      if calls[n].model != model { assert OfModel(calls, model) == OfModel(calls[..n], model); }
    }
  }

  /** With costs that are not negative its cost is the sum of their rounded costs. */
  lemma {:induction false} ModelCostIsItsCalls(calls: seq<Call>, model: string)
    requires NonNegative(calls)
    ensures TallyOf(Ledger(calls).byModel, model).cost == SumRounded(OfModel(calls, model))
    decreases |calls|
  {
    if calls != [] {
      var n := |calls| - 1;
      ModelCostIsItsCalls(calls[..n], model);
      CostsAddUp(calls[..n]);
      if calls[n].model == model {
        SumRoundedNext(OfModel(calls[..n], model), calls[n]);
        GainOfNonNegative(TallyOf(Ledger(calls[..n]).byModel, model).cost, calls[n].cost);
      } else {
        assert OfModel(calls, model) == OfModel(calls[..n], model);
      }
    }
  }

  /** The same for a provider; its free-tier flag is set by its first call. */
  lemma {:induction false} ProviderEntryCountsItsCalls(calls: seq<Call>, provider: string)
    ensures var own := OfProvider(calls, provider);
            var byProvider := Ledger(calls).byProvider;
            && (provider in byProvider <==> own != [])
            && (own != [] ==>
                  && byProvider[provider].requests == |own|
                  && byProvider[provider].tokens == SumOf(own, TotalCount)
                  && (byProvider[provider].freeTier <==> own[0].cost == 0.0))
    decreases |calls|
  {
    if calls != [] {
      var n := |calls| - 1;
      ProviderEntryCountsItsCalls(calls[..n], provider);
      SumOfNext(OfProvider(calls[..n], provider), calls[n], TotalCount);
      if calls[n].provider != provider { assert OfProvider(calls, provider) == OfProvider(calls[..n], provider); }
    }
  }

  function ProviderCostOf(byProvider: map<string, Provider>, provider: string): int {
    if provider in byProvider then byProvider[provider].cost else 0
  }

  lemma {:induction false} ProviderCostIsItsCalls(calls: seq<Call>, provider: string)
    requires NonNegative(calls)
    ensures ProviderCostOf(Ledger(calls).byProvider, provider) == SumRounded(OfProvider(calls, provider))
    decreases |calls|
  {
    if calls != [] {
      var n := |calls| - 1;
      ProviderCostIsItsCalls(calls[..n], provider);
      CostsAddUp(calls[..n]);
      if calls[n].provider == provider {
        SumRoundedNext(OfProvider(calls[..n], provider), calls[n]);
        GainOfNonNegative(ProviderCostOf(Ledger(calls[..n]).byProvider, provider), calls[n].cost);
      } else {
        assert OfProvider(calls, provider) == OfProvider(calls[..n], provider);
      }
    }
  }

  // ---- History ----

  /** What an entry of the history tells of its call: every count that is positive, 0 for the others. */
  ghost predicate Tells(e: Entry, c: Call) {
    && e.timestamp == c.timestamp && e.model == c.model && e.provider == c.provider
    && e.cost == RoundCost(c.cost)
    && e.usage.total == (if c.usage.total > 0 then c.usage.total else 0)
    && e.usage.prompt == (if c.usage.prompt > 0 then c.usage.prompt else 0)
    && e.usage.completion == (if c.usage.completion > 0 then c.usage.completion else 0)
    && e.usage.reasoning == (if c.usage.reasoning > 0 then c.usage.reasoning else 0)
    && e.usage.cached == (if c.usage.cached > 0 then c.usage.cached else 0)
  }

  lemma EntryTells(c: Call)
    ensures Tells(EntryOf(c), c)
  {
  }

  /** The history holds the newest thousand entries, newest first, each of which tells of its call. */
  lemma {:induction false} HistoryIsTheNewest(calls: seq<Call>)
    ensures |History(calls)| == if |calls| <= 1000 then |calls| else 1000
    ensures forall i :: 0 <= i < |History(calls)| ==> Tells(History(calls)[i], calls[|calls| - 1 - i])
    ensures forall i :: 0 <= i < |History(calls)| ==> History(calls)[i] == EntryOf(calls[|calls| - 1 - i])
    decreases |calls|
  {
    if calls != [] {
      var n := |calls| - 1;
      HistoryIsTheNewest(calls[..n]);
      var h := History(calls);
      forall i | 0 <= i < |h| ensures h[i] == EntryOf(calls[n - i]) && Tells(h[i], calls[n - i]) {
        EntryTells(calls[n - i]);
        if i > 0 { assert h[i] == History(calls[..n])[i - 1]; }
      }
    }
  }

  // ---- Keys ----

  const COST_PREFIX := "session:cost:"
  const HISTORY_PREFIX := "session:cost:history:"
  const HISTORY_MARK := ":history:"

  function CostKey(sessionId: string): string { COST_PREFIX + sessionId }

  function HistoryKey(sessionId: string): string { HISTORY_PREFIX + sessionId }

  predicate OccursAt(s: string, i: int, part: string) {
    0 <= i <= |s| - |part| && s[i..i + |part|] == part
  }

  predicate Contains(s: string, part: string) {
    exists i :: 0 <= i <= |s| - |part| && OccursAt(s, i, part)
  }

  /** The aggregate of one session and the history of another share a key exactly when the first id is
      "history:" followed by the second. */
  lemma KeysCollideExactly(a: string, b: string)
    ensures CostKey(a) == HistoryKey(b) <==> a == "history:" + b
    ensures CostKey(a) == CostKey(b) <==> a == b
    ensures HistoryKey(a) == HistoryKey(b) <==> a == b
  {
    assert HISTORY_PREFIX == COST_PREFIX + "history:";
    assert CostKey(a)[13..] == a && CostKey(b)[13..] == b;
    assert HistoryKey(a)[21..] == a && HistoryKey(b)[21..] == b;
    assert HistoryKey(b)[13..] == "history:" + b;
    if a == "history:" + b { assert CostKey(a) == HistoryKey(b); }
  }

  lemma MarkStartsLate(id: string, i: nat)
    requires OccursAt(CostKey(id), i, HISTORY_MARK)
    ensures i >= 12
  {
    var key := CostKey(id);
    assert key[i] == key[i..i + 9][0] == ':' && key[i + 1] == key[i..i + 9][1] == 'h';
  }

  lemma MarkInKey(id: string, i: nat)
    requires OccursAt(CostKey(id), i, HISTORY_MARK)
    ensures Contains(id, HISTORY_MARK) || OccursAt(id, 0, "history:")
  {
    var key := CostKey(id);
    MarkStartsLate(id, i);
    if i == 12 {
      assert key[12..21][1..] == id[..8] && HISTORY_MARK[1..] == "history:";
    } else {
      assert key[i..i + 9] == id[i - 13..i - 4];
      assert OccursAt(id, i - 13, HISTORY_MARK);
    }
  }

  lemma MarkFromId(id: string, i: nat)
    ensures OccursAt(id, i, HISTORY_MARK) ==> OccursAt(CostKey(id), i + 13, HISTORY_MARK)
    ensures OccursAt(id, 0, "history:") ==> OccursAt(CostKey(id), 12, HISTORY_MARK)
  {
    var key := CostKey(id);
    if OccursAt(id, i, HISTORY_MARK) { assert key[i + 13..i + 22] == id[i..i + 9]; }
    if OccursAt(id, 0, "history:") { assert key[12..21] == ":" + id[0..8] == HISTORY_MARK; }
  }

  /** The summary passes over a session exactly when its id contains ":history:" or starts with
      "history:". */
  lemma SkippedExactly(id: string)
    ensures Contains(CostKey(id), HISTORY_MARK) <==> Contains(id, HISTORY_MARK) || OccursAt(id, 0, "history:")
  {
    if Contains(CostKey(id), HISTORY_MARK) {
      var i :| 0 <= i <= |CostKey(id)| - |HISTORY_MARK| && OccursAt(CostKey(id), i, HISTORY_MARK);
      MarkInKey(id, i);
    }
    MarkFromId(id, 0);
    if Contains(id, HISTORY_MARK) {
      var i :| 0 <= i <= |id| - |HISTORY_MARK| && OccursAt(id, i, HISTORY_MARK);
      MarkFromId(id, i);
    }
  }

  /** It passes over every history. */
  lemma HistoriesAreSkipped(id: string)
    ensures Contains(HistoryKey(id), HISTORY_MARK)
  {
    assert HistoryKey(id)[12..21] == HISTORY_MARK;
    assert OccursAt(HistoryKey(id), 12, HISTORY_MARK);
  }

  // ---- The summary over all sessions ----

  datatype Stored = Data(data: Aggregate) | List

  predicate Counted(store: map<string, Stored>, key: string) {
    !Contains(key, HISTORY_MARK) && key in store && store[key].Data?
  }

  datatype Summary = Summary(sessions: nat, cost: int, requests: nat)

  function SummaryOf(store: map<string, Stored>, scan: seq<string>): Summary {
    if scan == [] then Summary(0, 0, 0)
    else
      var n := |scan| - 1;
      var s := SummaryOf(store, scan[..n]);
      if !Counted(store, scan[n]) then s
      else
        var data := store[scan[n]].data;
        Summary(s.sessions + 1, s.cost + data.totalCost, s.requests + data.totalRequests)
  }

  /** `scan` is what SCAN yields; a list under a key that is read as an aggregate is passed over. */
  method GetAllSessionsSummary(store: map<string, Stored>, scan: seq<string>) returns (s: Summary)
    ensures s == SummaryOf(store, scan)
  {
    var sessions: nat, totalCost: int, totalRequests: nat := 0, 0, 0;
    for n := 0 to |scan|
      invariant Summary(sessions, totalCost, totalRequests) == SummaryOf(store, scan[..n])
    {
      assert scan[..n + 1][..n] == scan[..n];
      if Contains(scan[n], HISTORY_MARK) { continue; }
      if scan[n] in store && store[scan[n]].Data? {
        sessions := sessions + 1;
        totalCost := totalCost + store[scan[n]].data.totalCost;
        totalRequests := totalRequests + store[scan[n]].data.totalRequests;
      }
    }
    assert scan[..|scan|] == scan;
    return Summary(sessions, totalCost, totalRequests);
  }

  /** The aggregates among the scanned keys that are no history's. */
  ghost function CountedAmong(store: map<string, Stored>, scan: seq<string>): map<string, Aggregate> {
    map k | k in store && k in scan && store[k].Data? && !Contains(k, ":history:") :: store[k].data
  }

  ghost predicate NoRepeats(scan: seq<string>) {
    forall i, j :: 0 <= i < j < |scan| ==> scan[i] != scan[j]
  }

  function AggregateCost(): Aggregate -> int { (a: Aggregate) => a.totalCost }

  function AggregateRequests(): Aggregate -> int { (a: Aggregate) => a.totalRequests }

  lemma CountedNext(store: map<string, Stored>, scan: seq<string>, key: string)
    requires key !in scan
    ensures key !in CountedAmong(store, scan)
    ensures CountedAmong(store, scan + [key])
            == if Counted(store, key) then CountedAmong(store, scan)[key := store[key].data] else CountedAmong(store, scan)
  {
    forall k ensures k in scan + [key] <==> k in scan || k == key {
    }
  }

  /** A scan that yields no key twice counts each session that is not passed over once, in any order. */
  lemma {:induction false} SummaryIsTheSum(store: map<string, Stored>, scan: seq<string>)
    requires NoRepeats(scan)
    ensures SummaryOf(store, scan).cost == SumMap(CountedAmong(store, scan), AggregateCost())
    ensures SummaryOf(store, scan).requests == SumMap(CountedAmong(store, scan), AggregateRequests())
    ensures SummaryOf(store, scan).sessions == |CountedAmong(store, scan)|
    decreases |scan|
  {
    if scan == [] {
      assert CountedAmong(store, scan) == map[];
    } else {
      var n := |scan| - 1;
      SummaryIsTheSum(store, scan[..n]);
      CountedNext(store, scan[..n], scan[n]);
      assert scan == scan[..n] + [scan[n]];
      if Counted(store, scan[n]) {
        SumMapUpdate(CountedAmong(store, scan[..n]), scan[n], store[scan[n]].data, AggregateCost());
        SumMapUpdate(CountedAmong(store, scan[..n]), scan[n], store[scan[n]].data, AggregateRequests());
      }
    }
  }
}
