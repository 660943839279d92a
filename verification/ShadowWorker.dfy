/** The shadow-judge worker: one poll pops a batch, has it judged, and writes the rows or puts the batch
    back.

    The judge's replies and the outcomes of the two database writes are parameters; `executemany` is
    atomic.  A missing trace id is the empty string. */
module ShadowWorker {
  import opened Options
  import opened ShadowQueue

  // ---- Scores and rows ----

  /** A value in the judge's JSON where a score is expected; `float` of the text of a number counts as
      a number, everything else (and NaN, which `max` maps to 0) does not. */
  datatype Raw = Number(r: real) | NotANumber

  datatype Entry = Entry(traceId: string, helpfulness: Raw, faithfulness: Raw, adherence: Raw, summary: string)

  /** The judge's own summary, or one of the two that the worker writes itself. */
  datatype Summary = Given(text: string) | ParsingFallback | Unavailable(status: int)

  datatype Model = Primary | Fallback

  /** A row of `shadow_judge_evals`; `itemId` names the queued item that it is for. */
  datatype Row = Row(
    itemId: nat, traceId: string, helpfulness: real, faithfulness: real, adherence: real,
    summary: Summary, model: Model)

  function Coerce(raw: Raw): (score: real)
    ensures 0.0 <= score <= 1.0
    ensures raw.Number? && 0.0 <= raw.r <= 1.0 ==> score == raw.r
    ensures raw.Number? && raw.r > 1.0 ==> score == 1.0
    ensures raw.NotANumber? || raw.r < 0.0 ==> score == 0.0
  {
    match raw
    case NotANumber => 0.0
    case Number(r) => if r <= 0.0 then 0.0 else if r >= 1.0 then 1.0 else r
  }

  function DefaultRow(item: Item, summary: Summary, model: Model): Row {
    Row(item.id, item.traceId, 0.0, 0.0, 0.0, summary, model)
  }

  function JudgedRow(item: Item, entry: Entry, model: Model): Row {
    Row(item.id, item.traceId, Coerce(entry.helpfulness), Coerce(entry.faithfulness), Coerce(entry.adherence),
        Given(entry.summary), model)
  }

  /** The last entry of the reply for a trace; entries without a trace id are ignored. */
  function LastEntry(entries: seq<Entry>, traceId: string): Option<Entry> {
    if entries == [] || traceId == "" then None
    else if entries[|entries| - 1].traceId == traceId then Some(entries[|entries| - 1])
    else LastEntry(entries[..|entries| - 1], traceId)
  }

  /** It is the one after which no other entry names the trace. */
  lemma {:induction false} LastEntryWins(entries: seq<Entry>, traceId: string, i: nat)
    requires i < |entries| && entries[i].traceId == traceId != ""
    requires forall j :: i < j < |entries| ==> entries[j].traceId != traceId
    ensures LastEntry(entries, traceId) == Some(entries[i])
    decreases |entries|
  {
    var n := |entries| - 1;
    if i < n { LastEntryWins(entries[..n], traceId, i); }
  }

  lemma {:induction false} NoEntryMeansDefault(entries: seq<Entry>, traceId: string)
    ensures LastEntry(entries, traceId) == None
            <==> traceId == "" || forall j :: 0 <= j < |entries| ==> entries[j].traceId != traceId
    decreases |entries|
  {
    if entries != [] { NoEntryMeansDefault(entries[..|entries| - 1], traceId); }
  }

  function RowFor(item: Item, entries: seq<Entry>, model: Model): Row {
    match LastEntry(entries, item.traceId)
    case None => DefaultRow(item, ParsingFallback, Primary)
    case Some(entry) => JudgedRow(item, entry, model)
  }

  /** The `j`-th entry is the last of the reply that names the trace. */
  ghost predicate LastNaming(entries: seq<Entry>, traceId: string, j: nat) {
    && traceId != "" && j < |entries| && entries[j].traceId == traceId
    && forall k :: j < k < |entries| ==> entries[k].traceId != traceId
  }

  /** The row says of the item what the reply says of its trace, field by field; where it says nothing, the
      row has zero scores, the fallback summary and the primary model's name. */
  ghost predicate RowMeans(item: Item, entries: seq<Entry>, model: Model, row: Row) {
    && row.itemId == item.id && row.traceId == item.traceId
    && (forall j: nat :: LastNaming(entries, item.traceId, j) ==>
          && row.helpfulness == Coerce(entries[j].helpfulness)
          && row.faithfulness == Coerce(entries[j].faithfulness)
          && row.adherence == Coerce(entries[j].adherence)
          && row.summary == Given(entries[j].summary) && row.model == model)
    && (item.traceId == "" || (forall j :: 0 <= j < |entries| ==> entries[j].traceId != item.traceId) ==>
          && row.helpfulness == 0.0 && row.faithfulness == 0.0 && row.adherence == 0.0
          && row.summary == ParsingFallback && row.model == Primary)
  }

  lemma RowForMeans(item: Item, entries: seq<Entry>, model: Model)
    ensures RowMeans(item, entries, model, RowFor(item, entries, model))
  {
    forall j: nat | LastNaming(entries, item.traceId, j) ensures LastEntry(entries, item.traceId) == Some(entries[j]) {
      LastEntryWins(entries, item.traceId, j);
    }
    NoEntryMeansDefault(entries, item.traceId);
  }

  /** The end of `_call_groq`: one row for each item of the batch, in its order. */
  method MatchRows(batch: seq<Item>, entries: seq<Entry>, model: Model) returns (rows: seq<Row>)
    ensures |rows| == |batch|
    ensures forall i :: 0 <= i < |batch| ==> rows[i] == RowFor(batch[i], entries, model)
    ensures forall i :: 0 <= i < |batch| ==> RowMeans(batch[i], entries, model, rows[i])
  {
    var byTrace: map<string, Entry> := map[];
    for n := 0 to |entries|
      invariant "" !in byTrace
      invariant forall t :: t in byTrace <==> LastEntry(entries[..n], t).Some?
      invariant forall t :: t in byTrace ==> LastEntry(entries[..n], t) == Some(byTrace[t])
    {
      assert entries[..n + 1][..n] == entries[..n];
      var traceId := entries[n].traceId;
      if traceId != "" { byTrace := byTrace[traceId := entries[n]]; }
    }
    assert entries[..|entries|] == entries;
    rows := [];
    for n := 0 to |batch|
      invariant |rows| == n
      invariant forall i :: 0 <= i < n ==> rows[i] == RowFor(batch[i], entries, model)
    {
      var item := batch[n];
      if item.traceId in byTrace {
        rows := rows + [JudgedRow(item, byTrace[item.traceId], model)];
      } else {
        rows := rows + [DefaultRow(item, ParsingFallback, Primary)];
      }
    }
    forall i | 0 <= i < |batch| ensures RowMeans(batch[i], entries, model, rows[i]) {
      RowForMeans(batch[i], entries, model);
    }
  }

  function RowsFor(batch: seq<Item>, entries: seq<Entry>, model: Model): (rows: seq<Row>)
    ensures |rows| == |batch|
    ensures forall i :: 0 <= i < |batch| ==> rows[i] == RowFor(batch[i], entries, model)
  {
    seq(|batch|, i requires 0 <= i < |batch| => RowFor(batch[i], entries, model))
  }

  function DefaultRows(batch: seq<Item>, summary: Summary, model: Model): (rows: seq<Row>)
    ensures |rows| == |batch|
    ensures forall i :: 0 <= i < |batch| ==> rows[i] == DefaultRow(batch[i], summary, model)
  {
    seq(|batch|, i requires 0 <= i < |batch| => DefaultRow(batch[i], summary, model))
  }

  /** One call of the judge. */
  datatype Call = Answer(entries: seq<Entry>) | HttpError(status: int) | OtherError

  /** `_evaluate_batch`: the primary model, then the fallback; a 4xx from the fallback yields default
      rows, any other failure is raised. */
  function Evaluate(batch: seq<Item>, primary: Call, fallback: Call): Option<seq<Row>> {
    match primary
    case Answer(entries) => Some(RowsFor(batch, entries, Primary))
    case _ =>
      match fallback
      case Answer(entries) => Some(RowsFor(batch, entries, Fallback))
      case HttpError(status) =>
        if 400 <= status < 500 then Some(DefaultRows(batch, Unavailable(status), Fallback)) else None
      case OtherError => None
  }

  method EvaluateBatch(batch: seq<Item>, primary: Call, fallback: Call) returns (rows: Option<seq<Row>>)
    ensures rows == Evaluate(batch, primary, fallback)
    ensures rows.Some? ==> |rows.value| == |batch|
  {
    if primary.Answer? {
      var matched := MatchRows(batch, primary.entries, Primary);
      assert matched == RowsFor(batch, primary.entries, Primary);
      return Some(matched);
    }
    match fallback {
      case Answer(entries) =>
        var matched := MatchRows(batch, entries, Fallback);
        assert matched == RowsFor(batch, entries, Fallback);
        return Some(matched);
      case HttpError(status) =>
        if 400 <= status < 500 { return Some(DefaultRows(batch, Unavailable(status), Fallback)); }
        return None;
      case OtherError => return None;
    }
  }

  /** Whatever the judge says, a batch is either raised as a whole or gets one row for each item, in
      order, with the item's own trace id and scores between 0 and 1. */
  lemma EveryItemGetsItsRow(batch: seq<Item>, primary: Call, fallback: Call)
    requires Evaluate(batch, primary, fallback).Some?
    ensures var rows := Evaluate(batch, primary, fallback).value;
            && |rows| == |batch|
            && forall i :: 0 <= i < |batch| ==>
                 && rows[i].itemId == batch[i].id && rows[i].traceId == batch[i].traceId
                 && 0.0 <= rows[i].helpfulness <= 1.0 && 0.0 <= rows[i].faithfulness <= 1.0
                 && 0.0 <= rows[i].adherence <= 1.0
  {
  }

  ghost predicate RowsMean(batch: seq<Item>, entries: seq<Entry>, model: Model, rows: seq<Row>) {
    |rows| == |batch| && forall i :: 0 <= i < |batch| ==> RowMeans(batch[i], entries, model, rows[i])
  }

  lemma RowsForMean(batch: seq<Item>, entries: seq<Entry>, model: Model)
    ensures RowsMean(batch, entries, model, RowsFor(batch, entries, model))
  {
    forall i | 0 <= i < |batch| ensures RowMeans(batch[i], entries, model, RowFor(batch[i], entries, model)) {
      RowForMeans(batch[i], entries, model);
    }
  }

  /** Every field of every row: what the primary model says of the trace, else what the fallback says; zero
      scores with the status in the summary when the fallback is refused with a 4xx; and no rows at all
      exactly when the fallback fails in another way. */
  lemma EvaluateMeans(batch: seq<Item>, primary: Call, fallback: Call)
    ensures var rows := Evaluate(batch, primary, fallback);
            && (rows == None <==>
                  !primary.Answer? && !fallback.Answer? && !(fallback.HttpError? && 400 <= fallback.status <= 499))
            && (primary.Answer? ==> RowsMean(batch, primary.entries, Primary, rows.value))
            && (!primary.Answer? && fallback.Answer? ==> RowsMean(batch, fallback.entries, Fallback, rows.value))
            && (!primary.Answer? && fallback.HttpError? && rows.Some? ==>
                  && |rows.value| == |batch|
                  && forall i :: 0 <= i < |batch| ==>
                       rows.value[i]
                       == Row(batch[i].id, batch[i].traceId, 0.0, 0.0, 0.0, Unavailable(fallback.status), Fallback))
  {
    if primary.Answer? { RowsForMean(batch, primary.entries, Primary); }
    if fallback.Answer? { RowsForMean(batch, fallback.entries, Fallback); }
  }

  // ---- The mirror in `eval_results` ----

  datatype Metric = Helpfulness | Faithfulness | PolicyAdherence

  datatype MirrorRow = MirrorRow(
    traceId: string, metric: Metric, score: real, passed: bool, summary: Summary, model: Model)

  type Mirror = map<string, MirrorRow>

  const PASS_THRESHOLD := 0.7

  function MetricKey(metric: Metric): string {
    match metric
    case Helpfulness => ":helpfulness"
    case Faithfulness => ":faithfulness"
    case PolicyAdherence => ":policy_adherence"
  }

  function MirrorKey(traceId: string, metric: Metric): string {
    "shadow:" + traceId + MetricKey(metric)
  }

  function ScoreOf(row: Row, metric: Metric): real {
    match metric
    case Helpfulness => row.helpfulness
    case Faithfulness => row.faithfulness
    case PolicyAdherence => row.adherence
  }

  function Mirrored(row: Row, metric: Metric): MirrorRow {
    MirrorRow(row.traceId, metric, ScoreOf(row, metric), ScoreOf(row, metric) >= PASS_THRESHOLD, row.summary, row.model)
  }

  /** The rows to mirror: three for each judged row that has a trace id. */
  function Params(rows: seq<Row>): seq<MirrorRow> {
    if rows == [] then [] else Params(rows[..|rows| - 1]) + ThreeOf(rows[|rows| - 1])
  }

  function ThreeOf(row: Row): seq<MirrorRow> {
    if row.traceId == "" then []
    else [Mirrored(row, Helpfulness), Mirrored(row, Faithfulness), Mirrored(row, PolicyAdherence)]
  }

  /** INSERT ... ON CONFLICT DO NOTHING. */
  function Insert(mirror: Mirror, row: MirrorRow): Mirror {
    var key := MirrorKey(row.traceId, row.metric);
    if key in mirror then mirror else mirror[key := row]
  }

  function InsertAll(mirror: Mirror, params: seq<MirrorRow>): Mirror {
    if params == [] then mirror else Insert(InsertAll(mirror, params[..|params| - 1]), params[|params| - 1])
  }

  /** A key names its trace and its metric, whatever characters the trace id has. */
  lemma MirrorKeyIsInjective(t: string, m: Metric, t': string, m': Metric)
    requires MirrorKey(t, m) == MirrorKey(t', m')
    ensures t == t' && m == m'
  {
    var key := MirrorKey(t, m);
    var n := |key|;
    assert key[n - 1] == MetricKey(m)[|MetricKey(m)| - 1] == MetricKey(m')[|MetricKey(m')| - 1];
    assert key[n - 12] == MetricKey(m)[|MetricKey(m)| - 12] == MetricKey(m')[|MetricKey(m')| - 12];
    assert m == m';
    assert t == key[7..n - |MetricKey(m)|] && t' == key[7..n - |MetricKey(m)|];
  }

  /** Every mirrored row sits at its own key. */
  ghost predicate MirrorInv(mirror: Mirror) {
    forall k :: k in mirror ==> k == MirrorKey(mirror[k].traceId, mirror[k].metric)
  }

  ghost function RowsOfTrace(mirror: Mirror, traceId: string): set<string> {
    set k | k in mirror && mirror[k].traceId == traceId
  }

  /** However often a trace is judged, the mirror holds at most three rows for it. */
  lemma AtMostThreeRows(mirror: Mirror, batches: seq<seq<Row>>, traceId: string)
    requires MirrorInv(mirror)
    ensures |RowsOfTrace(MirrorBatches(mirror, batches), traceId)| <= 3
  {
    MirrorBatchesKeepInv(mirror, batches);
    var after := MirrorBatches(mirror, batches);
    var three := {MirrorKey(traceId, Helpfulness), MirrorKey(traceId, Faithfulness), MirrorKey(traceId, PolicyAdherence)};
    assert RowsOfTrace(after, traceId) <= three;
    assert three == RowsOfTrace(after, traceId) + (three - RowsOfTrace(after, traceId));
    assert |three| <= 3;
  }

  function MirrorBatches(mirror: Mirror, batches: seq<seq<Row>>): Mirror {
    if batches == [] then mirror
    else InsertAll(MirrorBatches(mirror, batches[..|batches| - 1]), Params(batches[|batches| - 1]))
  }

  lemma {:induction false} MirrorBatchesKeepInv(mirror: Mirror, batches: seq<seq<Row>>)
    requires MirrorInv(mirror)
    ensures MirrorInv(MirrorBatches(mirror, batches))
    decreases |batches|
  {
    if batches != [] {
      var n := |batches| - 1;
      MirrorBatchesKeepInv(mirror, batches[..n]);
      InsertAllKeeps(MirrorBatches(mirror, batches[..n]), Params(batches[n]));
    }
  }

  lemma InsertKeeps(mirror: Mirror, row: MirrorRow)
    requires MirrorInv(mirror)
    ensures MirrorInv(Insert(mirror, row))
  {
  }

  /** The first score mirrored for a trace and metric stays. */
  lemma {:induction false} FirstScoreStays(mirror: Mirror, params: seq<MirrorRow>, key: string)
    requires key in mirror
    ensures key in InsertAll(mirror, params) && InsertAll(mirror, params)[key] == mirror[key]
    decreases |params|
  {
    if params != [] { FirstScoreStays(mirror, params[..|params| - 1], key); }
  }

  lemma {:induction false} InsertAllKeeps(mirror: Mirror, params: seq<MirrorRow>)
    requires MirrorInv(mirror)
    ensures MirrorInv(InsertAll(mirror, params))
    decreases |params|
  {
    if params != [] {
      var n := |params| - 1;
      InsertAllKeeps(mirror, params[..n]);
      InsertKeeps(InsertAll(mirror, params[..n]), params[n]);
    }
  }

  /** Every row asked for finds its key taken afterwards. */
  lemma {:induction false} EveryParamIsMirrored(mirror: Mirror, params: seq<MirrorRow>, i: nat)
    requires i < |params|
    ensures MirrorKey(params[i].traceId, params[i].metric) in InsertAll(mirror, params)
    decreases |params|
  {
    var n := |params| - 1;
    if i < n { EveryParamIsMirrored(mirror, params[..n], i); }
  }

  /** Judging traces again whose rows are all mirrored changes nothing. */
  lemma {:induction false} MirroringAgainChangesNothing(mirror: Mirror, params: seq<MirrorRow>)
    requires forall p :: p in params ==> MirrorKey(p.traceId, p.metric) in mirror
    ensures InsertAll(mirror, params) == mirror
    decreases |params|
  {
    if params != [] { MirroringAgainChangesNothing(mirror, params[..|params| - 1]); }
  }

  lemma {:induction false} InsertAllSplit(mirror: Mirror, a: seq<MirrorRow>, b: seq<MirrorRow>)
    ensures InsertAll(mirror, a + b) == InsertAll(InsertAll(mirror, a), b)
    decreases |b|
  {
    if b == [] {
      assert a + b == a;
    } else {
      assert (a + b)[..|a + b| - 1] == a + b[..|b| - 1];
      InsertAllSplit(mirror, a, b[..|b| - 1]);
    }
  }

  /** One row of the judge, metric by metric, as it is mirrored. */
  function MirrorOf(row: Row, metric: Metric): (m: MirrorRow)
    ensures m.traceId == row.traceId && m.metric == metric && m.summary == row.summary && m.model == row.model
    ensures metric.Helpfulness? ==> m.score == row.helpfulness
    ensures metric.Faithfulness? ==> m.score == row.faithfulness
    ensures metric.PolicyAdherence? ==> m.score == row.adherence
    ensures m.passed <==> 0.7 <= m.score
  {
    Mirrored(row, metric)
  }

  lemma ThreeInserted(mirror: Mirror, row: Row)
    requires row.traceId != ""
    ensures InsertAll(mirror, ThreeOf(row))
            == Insert(Insert(Insert(mirror, Mirrored(row, Helpfulness)), Mirrored(row, Faithfulness)),
                      Mirrored(row, PolicyAdherence))
  {
    var three := ThreeOf(row);
    assert three[..2] == [three[0], three[1]] && three[..2][..1] == [three[0]] && [three[0]][..0] == [];
    assert InsertAll(mirror, [three[0]]) == Insert(mirror, three[0]);
    assert InsertAll(mirror, three[..2]) == Insert(Insert(mirror, three[0]), three[1]);
  }

  /** A row with a trace id puts its three scores at the three keys of its trace, where these are free. */
  lemma RowIsMirrored(mirror: Mirror, row: Row, key: string)
    ensures var after := InsertAll(mirror, ThreeOf(row));
            && (forall m :: row.traceId != "" && key == MirrorKey(row.traceId, m) && key !in mirror ==>
                  key in after && after[key] == MirrorOf(row, m))
            && ((row.traceId == "" || forall m :: key != MirrorKey(row.traceId, m)) && key !in mirror ==> key !in after)
  {
    if row.traceId != "" {
      ThreeInserted(mirror, row);
      forall m | key == MirrorKey(row.traceId, m) ensures forall n :: n != m ==> key != MirrorKey(row.traceId, n) {
        forall n | n != m ensures key != MirrorKey(row.traceId, n) {
          if key == MirrorKey(row.traceId, n) { MirrorKeyIsInjective(row.traceId, m, row.traceId, n); }
        }
      }
      assert Mirrored(row, Helpfulness).traceId == row.traceId;
    }
  }

  /** Row `i` is the first of the rows for trace `t`. */
  ghost predicate FirstFor(rows: seq<Row>, t: string, i: nat) {
    i < |rows| && rows[i].traceId == t && forall j :: 0 <= j < i ==> rows[j].traceId != t
  }

  /** What one more row does at a key of trace `t` and metric `m`. */
  ghost predicate Adds(before: Mirror, after: Mirror, key: string, row: Row, t: string, m: Metric) {
    if key in before then key in after && after[key] == before[key]
    else if row.traceId == t then key in after && after[key] == MirrorOf(row, m)
    else key !in after
  }

  lemma RowAtKey(mirror: Mirror, row: Row, t: string, m: Metric)
    requires t != ""
    ensures Adds(mirror, InsertAll(mirror, ThreeOf(row)), MirrorKey(t, m), row, t, m)
  {
    var key := MirrorKey(t, m);
    RowIsMirrored(mirror, row, key);
    if key in mirror {
      FirstScoreStays(mirror, ThreeOf(row), key);
    } else if row.traceId != t {
      forall k ensures key != MirrorKey(row.traceId, k) {
        if key == MirrorKey(row.traceId, k) { MirrorKeyIsInjective(t, m, row.traceId, k); }
      }
    }
  }

  /** The key holds the score of the first row for the trace, or nothing when no row is for it. */
  ghost predicate HoldsFirst(after: Mirror, key: string, rows: seq<Row>, t: string, m: Metric) {
    && (forall i: nat :: FirstFor(rows, t, i) ==> key in after && after[key] == MirrorOf(rows[i], m))
    && ((forall i :: 0 <= i < |rows| ==> rows[i].traceId != t) ==> key !in after)
  }

  lemma HoldsFirstNext(before: Mirror, after: Mirror, key: string, rows: seq<Row>, row: Row, t: string, m: Metric)
    requires HoldsFirst(before, key, rows, t, m) && Adds(before, after, key, row, t, m)
    ensures HoldsFirst(after, key, rows + [row], t, m)
  {
    var more, n := rows + [row], |rows|;
    assert more[n] == row && forall i :: 0 <= i < n ==> more[i] == rows[i];
    forall i: nat | FirstFor(more, t, i) ensures key in after && after[key] == MirrorOf(more[i], m) {
      if i < n { assert FirstFor(rows, t, i); }
    }
  }

  lemma {:induction false} HoldsFirstAfterAll(mirror: seq<Row> -> Mirror, key: string, rows: seq<Row>, t: string, m: Metric)
    requires key !in mirror([])
    requires forall some: seq<Row>, row :: Adds(mirror(some), mirror(some + [row]), key, row, t, m)
    ensures HoldsFirst(mirror(rows), key, rows, t, m)
    decreases |rows|
  {
    if rows != [] {
      var n := |rows| - 1;
      HoldsFirstAfterAll(mirror, key, rows[..n], t, m);
      HoldsFirstNext(mirror(rows[..n]), mirror(rows[..n] + [rows[n]]), key, rows[..n], rows[n], t, m);
      assert rows[..n] + [rows[n]] == rows;
    }
  }

  lemma ParamsNext(mirror: Mirror, rows: seq<Row>, row: Row)
    ensures InsertAll(mirror, Params(rows + [row])) == InsertAll(InsertAll(mirror, Params(rows)), ThreeOf(row))
  {
    assert (rows + [row])[..|rows|] == rows;
    InsertAllSplit(mirror, Params(rows), ThreeOf(row));
  }

  /** What mirroring rows leaves at the key of a trace and metric that was free: the score of that metric in
      the first row for the trace, passed from 0.7 on; nothing when no row is for it. */
  lemma MirroredScores(mirror: Mirror, rows: seq<Row>, t: string, m: Metric)
    requires t != "" && MirrorKey(t, m) !in mirror
    ensures HoldsFirst(InsertAll(mirror, Params(rows)), MirrorKey(t, m), rows, t, m)
  {
    var after := (some: seq<Row>) => InsertAll(mirror, Params(some));
    forall some: seq<Row>, row ensures Adds(after(some), after(some + [row]), MirrorKey(t, m), row, t, m) {
      ParamsNext(mirror, some, row);
      RowAtKey(after(some), row, t, m);
    }
    HoldsFirstAfterAll(after, MirrorKey(t, m), rows, t, m);
  }

  // ---- One poll ----

  /** What the world answers during one poll. */
  datatype Outcome = Outcome(primary: Call, fallback: Call, evalsWritten: bool, mirrorWritten: bool)

  datatype Config = Config(maxlen: int, dlqMaxlen: int, maxRetries: int, batchSize: int, connected: bool)

  datatype Store = Store(queue: seq<Payload>, dlq: seq<Item>, evals: seq<Row>, mirror: Mirror)

  function Popped(queue: seq<Payload>, limit: int): (n: nat)
    ensures n <= |queue|
  {
    Min(|queue|, if limit > 0 then limit else 0)
  }

  function PutBack(s: Store, cfg: Config, batch: seq<Item>): Store {
    s.(queue := Trim(PushAll(s.queue, Retried(batch, cfg.maxRetries)), cfg.maxlen),
       dlq := Trim(PushAll(s.dlq, GivenUp(batch, cfg.maxRetries)), cfg.dlqMaxlen))
  }

  /** The store after one poll. */
  function Poll(s: Store, cfg: Config, o: Outcome): Store {
    var n := Popped(s.queue, cfg.batchSize);
    var batch := PopItems(s.queue, n);
    var s1 := s.(queue := s.queue[..|s.queue| - n]);
    if batch == [] then s1 else Settle(s1, cfg, batch, Evaluate(batch, o.primary, o.fallback), o)
  }

  /** The rows are written, or the batch goes back; without a database the rows are dropped. */
  function Settle(s: Store, cfg: Config, batch: seq<Item>, rows: Option<seq<Row>>, o: Outcome): Store {
    if rows == None || (cfg.connected && !o.evalsWritten) then PutBack(s, cfg, batch)
    else if !cfg.connected then s
    else s.(evals := s.evals + rows.value,
            mirror := if o.mirrorWritten then InsertAll(s.mirror, Params(rows.value)) else s.mirror)
  }

  /** What the poll returns; `None` when it raises. */
  function Processed(s: Store, cfg: Config, o: Outcome): Option<nat> {
    var batch := PopItems(s.queue, Popped(s.queue, cfg.batchSize));
    if batch == [] then Some(0) else Counted(cfg, batch, Evaluate(batch, o.primary, o.fallback), o)
  }

  function Counted(cfg: Config, batch: seq<Item>, rows: Option<seq<Row>>, o: Outcome): Option<nat> {
    if rows == None || (cfg.connected && !o.evalsWritten) then None else Some(|batch|)
  }

  /** A poll raises exactly when items were popped and could not be judged or their rows not written; then no
      row is written anywhere.  Otherwise the popped items are gone from the queue for good, and with a
      database there is one more row for each of them, in their order. */
  lemma PollWritesAllOrNothing(s: Store, cfg: Config, o: Outcome)
    ensures var n := Popped(s.queue, cfg.batchSize);
            var batch := PopItems(s.queue, n);
            var (e, count) := (Poll(s, cfg, o), Processed(s, cfg, o));
            && (count == None <==>
                  batch != [] && (Evaluate(batch, o.primary, o.fallback) == None || (cfg.connected && !o.evalsWritten)))
            && (count == None ==> e.evals == s.evals && e.mirror == s.mirror)
            && (count.Some? ==>
                  && count == Some(|batch|) && e.queue == s.queue[..|s.queue| - n] && e.dlq == s.dlq
                  && s.evals <= e.evals
                  && |e.evals| == |s.evals| + (if cfg.connected then |batch| else 0)
                  && (forall i :: |s.evals| <= i < |e.evals| ==> e.evals[i].itemId == batch[i - |s.evals|].id)
                  && (!cfg.connected ==> e.mirror == s.mirror))
  {
    var batch := PopItems(s.queue, Popped(s.queue, cfg.batchSize));
    if Evaluate(batch, o.primary, o.fallback).Some? { EveryItemGetsItsRow(batch, o.primary, o.fallback); }
  }

  class ShadowJudgeWorker {
    const queue: RedisTraceQueue
    const batchSize: int
    const connected: bool
    var evals: seq<Row>
    var mirror: Mirror

    constructor (queue: RedisTraceQueue, batchSize: int, connected: bool)
      ensures this.queue == queue && this.batchSize == batchSize && this.connected == connected
      ensures evals == [] && mirror == map[]
    {
      this.queue, this.batchSize, this.connected := queue, batchSize, connected;
      evals, mirror := [], map[];
    }

    ghost function State(): Store
      reads this, queue
    {
      Store(queue.queue, queue.dlq, evals, mirror)
    }

    ghost function Settings(): Config
      reads queue
    {
      Config(queue.maxlen, queue.dlqMaxlen, queue.maxRetries, batchSize, connected)
    }

    method MirrorIntoEvalResults(rows: seq<Row>, written: bool)
      modifies this`mirror
      ensures mirror == if connected && written then InsertAll(old(mirror), Params(rows)) else old(mirror)
    {
      if rows == [] || !connected { return; }
      var params := [];
      for n := 0 to |rows|
        invariant params == Params(rows[..n])
      {
        assert rows[..n + 1][..n] == rows[..n];
        var row := rows[n];
        if row.traceId == "" { continue; }
        var metrics := [Helpfulness, Faithfulness, PolicyAdherence];
        ghost var before := params;
        for k := 0 to |metrics|
          invariant params == before + ThreeOf(row)[..k]
        {
          var score := ScoreOf(row, metrics[k]);
          assert ThreeOf(row)[k] == Mirrored(row, metrics[k]);
          params := params + [MirrorRow(row.traceId, metrics[k], score, score >= PASS_THRESHOLD, row.summary, row.model)];
        }
        assert ThreeOf(row)[..3] == ThreeOf(row);
      }
      assert rows[..|rows|] == rows;
      if params == [] { return; }
      if written { InsertMissing(params); }
    }

    /** The `executemany` of the mirror. */
    method InsertMissing(params: seq<MirrorRow>)
      modifies this`mirror
      ensures mirror == InsertAll(old(mirror), params)
    {
      for n := 0 to |params|
        invariant mirror == InsertAll(old(mirror), params[..n])
      {
        assert params[..n + 1][..n] == params[..n];
        var key := MirrorKey(params[n].traceId, params[n].metric);
        if key !in mirror { mirror := mirror[key := params[n]]; }
      }
      assert params[..|params|] == params;
    }

    /** False when the write of the rows raises. */
    method PersistRows(rows: seq<Row>, evalsWritten: bool, mirrorWritten: bool) returns (ok: bool)
      modifies this`evals, this`mirror
      ensures ok == (rows == [] || !connected || evalsWritten)
      ensures evals == if connected && evalsWritten then old(evals) + rows else old(evals)
      ensures mirror == if connected && evalsWritten && mirrorWritten then InsertAll(old(mirror), Params(rows)) else old(mirror)
    {
      if rows == [] || !connected { return true; }
      if !evalsWritten { return false; }
      evals := evals + rows;
      MirrorIntoEvalResults(rows, mirrorWritten);
      return true;
    }

    method Finish(batch: seq<Item>, rows: Option<seq<Row>>, o: Outcome) returns (processed: Option<nat>)
      requires batch != [] && (rows.Some? ==> |rows.value| == |batch|)
      modifies this`evals, this`mirror, queue`queue, queue`dlq
      ensures State() == Settle(old(State()), Settings(), batch, rows, o)
      ensures processed == Counted(Settings(), batch, rows, o)
    {
      var ok := false;
      if rows.Some? {
        ok := PersistRows(rows.value, o.evalsWritten, o.mirrorWritten);
      }
      if ok { return Some(|rows.value|); }
      assert State() == old(State());
      var _, _ := queue.RequeueOrDeadLetterBatch(batch);
      assert State() == PutBack(old(State()), Settings(), batch);
      return None;
    }

    /** `None` when the poll raises, after the batch has been put back. */
    method ProcessOnce(o: Outcome) returns (processed: Option<nat>)
      modifies this`evals, this`mirror, queue`queue, queue`dlq
      ensures State() == Poll(old(State()), Settings(), o)
      ensures processed == Processed(old(State()), Settings(), o)
    {
      ghost var s := State();
      var batch := queue.PopBatch(batchSize);
      ghost var n := Popped(s.queue, batchSize);
      assert State() == s.(queue := s.queue[..|s.queue| - n]) && batch == PopItems(s.queue, n);
      if batch == [] { return Some(0); }
      var rows := EvaluateBatch(batch, o.primary, o.fallback);
      processed := Finish(batch, rows, o);
    }
  }

  // ---- The backlog drains ----

  /** How often an entry can still be popped. */
  function Weight(p: Payload, maxRetries: int): (w: nat)
    ensures w >= 1
  {
    match p
    case Malformed => 1
    case Good(item) => if item.retries <= maxRetries then maxRetries + 1 - item.retries else 1
  }

  function Backlog(queue: seq<Payload>, maxRetries: int): nat {
    if queue == [] then 0
    else Backlog(queue[..|queue| - 1], maxRetries) + Weight(queue[|queue| - 1], maxRetries)
  }

  lemma {:induction false} BacklogSplits(a: seq<Payload>, b: seq<Payload>, maxRetries: int)
    ensures Backlog(a + b, maxRetries) == Backlog(a, maxRetries) + Backlog(b, maxRetries)
    decreases |b|
  {
    if b == [] {
      assert a + b == a;
    } else {
      var n := |b| - 1;
      BacklogSplits(a, b[..n], maxRetries);
      assert (a + b)[..|a + b| - 1] == a + b[..n];
    }
  }

  lemma TrimLosesBacklog(list: seq<Payload>, maxlen: int, maxRetries: int)
    ensures Backlog(Trim(list, maxlen), maxRetries) <= Backlog(list, maxRetries)
  {
    var kept := Trim(list, maxlen);
    BacklogSplits(kept, list[|kept|..], maxRetries);
    assert list == kept + list[|kept|..];
  }

  lemma {:induction false} PushAddsBacklog(list: seq<Payload>, xs: seq<Payload>, maxRetries: int)
    ensures Backlog(PushAll(list, xs), maxRetries) == Backlog(list, maxRetries) + Backlog(xs, maxRetries)
    decreases |xs|
  {
    if xs != [] {
      var n := |xs| - 1;
      PushAddsBacklog(list, xs[..n], maxRetries);
      BacklogSplits([xs[n]], PushAll(list, xs[..n]), maxRetries);
      OneWeighs(xs[n], maxRetries);
    }
  }

  lemma OneWeighs(p: Payload, maxRetries: int)
    ensures Backlog([p], maxRetries) == Weight(p, maxRetries)
  {
    assert [p][..0] == [];
  }


  /** A failed item that goes back has one chance less. */
  lemma {:induction false} RetryingLosesBacklog(items: seq<Item>, maxRetries: int)
    ensures Backlog(Retried(items, maxRetries), maxRetries) + |items| <= Backlog(Wrap(items), maxRetries)
    decreases |items|
  {
    if items != [] {
      var n := |items| - 1;
      RetryingLosesBacklog(items[..n], maxRetries);
      assert Wrap(items)[..n] == Wrap(items[..n]);
      var item := items[n];
      if item.retries + 1 > maxRetries {
        assert Retried(items, maxRetries) == Retried(items[..n], maxRetries);
      } else {
        BacklogSplits(Retried(items[..n], maxRetries), [Good(Failed(item))], maxRetries);
        OneWeighs(Good(Failed(item)), maxRetries);
      }
    }
  }

  lemma LastWeighs(queue: seq<Payload>, n: nat, maxRetries: int)
    requires 0 < n <= |queue|
    ensures Backlog(queue[..|queue| - n + 1], maxRetries)
            == Backlog(queue[..|queue| - n], maxRetries) + Weight(queue[|queue| - n], maxRetries)
  {
    var rest := queue[..|queue| - n + 1];
    assert rest[..|rest| - 1] == queue[..|queue| - n];
  }

  /** What `n` pops take from the backlog is at least what the popped items weigh, and at least `n`. */
  lemma {:induction false} PoppingLosesBacklog(queue: seq<Payload>, n: nat, maxRetries: int)
    requires n <= |queue|
    ensures Backlog(queue[..|queue| - n], maxRetries) + Backlog(Wrap(PopItems(queue, n)), maxRetries)
            <= Backlog(queue, maxRetries)
    ensures Backlog(queue[..|queue| - n], maxRetries) + n <= Backlog(queue, maxRetries)
  {
    if n == 0 {
      assert queue[..|queue|] == queue;
    } else {
      PoppingLosesBacklog(queue, n - 1, maxRetries);
      LastWeighs(queue, n, maxRetries);
      WrapNext(PopItems(queue, n - 1), queue[|queue| - n], maxRetries);
    }
  }

  lemma WrapNext(items: seq<Item>, p: Payload, maxRetries: int)
    ensures Backlog(Wrap(items + ItemOf(p)), maxRetries) <= Backlog(Wrap(items), maxRetries) + Weight(p, maxRetries)
  {
    match p
    case Malformed => assert items + ItemOf(p) == items;
    case Good(item) =>
      assert Wrap(items + [item])[..|items|] == Wrap(items);
  }

  lemma PuttingBackLosesBacklog(s: Store, cfg: Config, batch: seq<Item>)
    ensures Backlog(PutBack(s, cfg, batch).queue, cfg.maxRetries) + |batch|
            <= Backlog(s.queue, cfg.maxRetries) + Backlog(Wrap(batch), cfg.maxRetries)
  {
    RetryingLosesBacklog(batch, cfg.maxRetries);
    PushAddsBacklog(s.queue, Retried(batch, cfg.maxRetries), cfg.maxRetries);
    TrimLosesBacklog(PushAll(s.queue, Retried(batch, cfg.maxRetries)), cfg.maxlen, cfg.maxRetries);
  }

  /** What the queue can be after `batch` was popped from `s`. */
  ghost predicate PollLeaves(s: Store, cfg: Config, n: nat, batch: seq<Item>, queue: seq<Payload>)
    requires n <= |s.queue|
  {
    var s1 := s.(queue := s.queue[..|s.queue| - n]);
    queue == s1.queue || queue == PutBack(s1, cfg, batch).queue
  }

  lemma SettleOutcome(s: Store, cfg: Config, batch: seq<Item>, rows: Option<seq<Row>>, o: Outcome)
    ensures Settle(s, cfg, batch, rows, o).queue == s.queue
            || Settle(s, cfg, batch, rows, o).queue == PutBack(s, cfg, batch).queue
  {
  }

  lemma PollOutcome(s: Store, cfg: Config, o: Outcome)
    ensures var n := Popped(s.queue, cfg.batchSize); PollLeaves(s, cfg, n, PopItems(s.queue, n), Poll(s, cfg, o).queue)
  {
    var n := Popped(s.queue, cfg.batchSize);
    var batch := PopItems(s.queue, n);
    var s1 := s.(queue := s.queue[..|s.queue| - n]);
    if batch != [] {
      var rows := Evaluate(batch, o.primary, o.fallback);
      assert Poll(s, cfg, o) == Settle(s1, cfg, batch, rows, o);
      SettleOutcome(s1, cfg, batch, rows, o);
    }
  }

  lemma PollLeavesLess(s: Store, cfg: Config, n: nat, batch: seq<Item>, queue: seq<Payload>)
    requires 0 < n <= |s.queue| && batch == PopItems(s.queue, n)
    requires PollLeaves(s, cfg, n, batch, queue)
    ensures Backlog(queue, cfg.maxRetries) < Backlog(s.queue, cfg.maxRetries)
  {
    PoppingLosesBacklog(s.queue, n, cfg.maxRetries);
    PuttingBackLosesBacklog(s.(queue := s.queue[..|s.queue| - n]), cfg, batch);
  }

  /** Whatever the judge and the database do, a poll of a queue that is not empty makes the backlog
      smaller. */
  lemma PollShrinksBacklog(s: Store, cfg: Config, o: Outcome)
    requires cfg.batchSize > 0 && s.queue != []
    ensures Backlog(Poll(s, cfg, o).queue, cfg.maxRetries) < Backlog(s.queue, cfg.maxRetries)
  {
    var n := Popped(s.queue, cfg.batchSize);
    PollOutcome(s, cfg, o);
    PollLeavesLess(s, cfg, n, PopItems(s.queue, n), Poll(s, cfg, o).queue);
  }

  lemma PollOfBacklog(s: Store, cfg: Config, o: Outcome)
    requires cfg.batchSize > 0
    ensures Backlog(Poll(s, cfg, o).queue, cfg.maxRetries) <= Max0(Backlog(s.queue, cfg.maxRetries) - 1)
  {
    if s.queue != [] {
      PollShrinksBacklog(s, cfg, o);
    } else {
      assert Poll(s, cfg, o).queue == [];
    }
  }

  function Iterate<S, O>(step: (S, O) -> S, s: S, inputs: seq<O>): S {
    if inputs == [] then s else step(Iterate(step, s, inputs[..|inputs| - 1]), inputs[|inputs| - 1])
  }

  /** A measure that every step makes smaller until it is 0. */
  ghost predicate Shrinks<S(!new), O(!new)>(step: (S, O) -> S, measure: S -> nat) {
    forall s, o :: measure(step(s, o)) <= Max0(measure(s) - 1)
  }

  lemma {:induction false} IterateShrinks<S(!new), O(!new)>(step: (S, O) -> S, measure: S -> nat, s: S, inputs: seq<O>)
    requires Shrinks(step, measure)
    ensures measure(Iterate(step, s, inputs)) <= Max0(measure(s) - |inputs|)
    decreases |inputs|
  {
    if inputs != [] { IterateShrinks(step, measure, s, inputs[..|inputs| - 1]); }
  }

  function PollStep(cfg: Config): (Store, Outcome) -> Store {
    (s, o) => Poll(s, cfg, o)
  }

  function QueueBacklog(cfg: Config): Store -> nat {
    (s: Store) => Backlog(s.queue, cfg.maxRetries)
  }

  /** The store after a number of polls with nothing enqueued meanwhile. */
  function Polls(s: Store, cfg: Config, outcomes: seq<Outcome>): Store {
    Iterate(PollStep(cfg), s, outcomes)
  }

  lemma PollsShrink(cfg: Config)
    requires cfg.batchSize > 0
    ensures Shrinks(PollStep(cfg), QueueBacklog(cfg))
  {
    forall s, o ensures Backlog(Poll(s, cfg, o).queue, cfg.maxRetries) <= Max0(Backlog(s.queue, cfg.maxRetries) - 1) {
      PollOfBacklog(s, cfg, o);
    }
  }

  /** With nothing enqueued meanwhile, the queue is empty after as many polls as the backlog counts,
      whatever the judge and the database do. */
  lemma TheQueueDrains(s: Store, cfg: Config, outcomes: seq<Outcome>)
    requires cfg.batchSize > 0 && |outcomes| >= Backlog(s.queue, cfg.maxRetries)
    ensures Polls(s, cfg, outcomes).queue == []
  {
    PollsShrink(cfg);
    IterateShrinks(PollStep(cfg), QueueBacklog(cfg), s, outcomes);
    NoBacklogMeansEmpty(Polls(s, cfg, outcomes).queue, cfg.maxRetries);
  }

  function Max0(n: int): nat { if n > 0 then n else 0 }

  lemma NoBacklogMeansEmpty(queue: seq<Payload>, maxRetries: int)
    ensures Backlog(queue, maxRetries) == 0 <==> queue == []
  {
  }
}
