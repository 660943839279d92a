/** Runs of the shadow queue with any number of workers.

    Every Redis command and every database write is one atomic step, and the steps of enqueuers and
    workers interleave freely.  No worker crashes and no Redis command fails.  `trimmed`, `discarded` and
    `judged` are records of what happened that the program does not keep. */
module ShadowRuns {
  import opened ShadowQueue
  import ShadowWorker

  type Config = ShadowWorker.Config

  /** A worker fills its batch, has it judged, and, on failure, pushes it back one item at a time. */
  datatype Phase = Collecting(popped: nat) | Evaluating | PuttingBack

  datatype Worker = Worker(batch: seq<Item>, phase: Phase)

  const IDLE := Worker([], Collecting(0))

  datatype State = State(
    queue: seq<Item>, dlq: seq<Item>, workers: seq<Worker>, nextId: nat,
    persisted: seq<Item>, discarded: seq<Item>, trimmed: seq<Item>, judged: seq<Item>)

  /** `TrimQueue` and `TrimDlq` are the LTRIMs of enqueuers and workers. */
  datatype Step =
    | Enqueue(traceId: string, body: string)
    | TrimQueue
    | TrimDlq
    | Pop(w: nat)
    | Settle(w: nat, written: bool)
    | PutBackOne(w: nat)

  function Init(workers: nat): State {
    State([], [], seq(workers, _ => IDLE), 0, [], [], [], [])
  }

  function DoEnqueue(s: State, traceId: string, body: string): State {
    s.(queue := [Item(s.nextId, traceId, 0, body)] + s.queue, nextId := s.nextId + 1)
  }

  function DoTrimQueue(s: State, cfg: Config): State {
    var kept := Trim(s.queue, cfg.maxlen);
    s.(queue := kept, trimmed := s.trimmed + s.queue[|kept|..])
  }

  function DoTrimDlq(s: State, cfg: Config): State {
    var kept := Trim(s.dlq, cfg.dlqMaxlen);
    s.(dlq := kept, trimmed := s.trimmed + s.dlq[|kept|..])
  }

  /** One turn of the loop of `pop_batch`: it stops at the limit or at an empty list. */
  function DoPop(s: State, cfg: Config, w: nat): State
    requires w < |s.workers| && s.workers[w].phase.Collecting?
  {
    var batch, popped := s.workers[w].batch, s.workers[w].phase.popped;
    if popped >= cfg.batchSize || s.queue == [] then
      s.(workers := s.workers[w := if batch == [] then IDLE else Worker(batch, Evaluating)])
    else
      var n := |s.queue| - 1;
      s.(queue := s.queue[..n],
         workers := s.workers[w := Worker(batch + [s.queue[n]], Collecting(popped + 1))])
  }

  /** The batch has been judged: its rows are written, or dropped when there is no database, or judging
      or writing failed. */
  function DoSettle(s: State, cfg: Config, w: nat, written: bool): State
    requires w < |s.workers| && s.workers[w].phase.Evaluating?
  {
    var batch := s.workers[w].batch;
    var s1 := s.(judged := s.judged + batch);
    if !written then s1.(workers := s.workers[w := Worker(batch, PuttingBack)])
    else if cfg.connected then s1.(workers := s.workers[w := IDLE], persisted := s.persisted + batch)
    else s1.(workers := s.workers[w := IDLE], discarded := s.discarded + batch)
  }

  /** One turn of the loop of `requeue_or_dead_letter_batch`. */
  function DoPutBackOne(s: State, cfg: Config, w: nat): State
    requires w < |s.workers| && s.workers[w].phase.PuttingBack?
  {
    var batch := s.workers[w].batch;
    if batch == [] then s.(workers := s.workers[w := IDLE])
    else
      var item := Failed(batch[0]);
      var s1 := s.(workers := s.workers[w := Worker(batch[1..], PuttingBack)]);
      if item.retries > cfg.maxRetries then s1.(dlq := [item] + s.dlq) else s1.(queue := [item] + s.queue)
  }

  /** A step of a worker that is not ready for it does nothing. */
  function Do(s: State, cfg: Config, step: Step): State {
    match step
    case Enqueue(traceId, body) => DoEnqueue(s, traceId, body)
    case TrimQueue => DoTrimQueue(s, cfg)
    case TrimDlq => DoTrimDlq(s, cfg)
    case Pop(w) => if w < |s.workers| && s.workers[w].phase.Collecting? then DoPop(s, cfg, w) else s
    case Settle(w, written) => if w < |s.workers| && s.workers[w].phase.Evaluating? then DoSettle(s, cfg, w, written) else s
    case PutBackOne(w) => if w < |s.workers| && s.workers[w].phase.PuttingBack? then DoPutBackOne(s, cfg, w) else s
  }

  function Exec(s: State, cfg: Config, steps: seq<Step>): State {
    if steps == [] then s else Do(Exec(s, cfg, steps[..|steps| - 1]), cfg, steps[|steps| - 1])
  }

  // ---- Sums ----

  function Sum<T>(xs: seq<T>, f: T -> nat): nat {
    if xs == [] then 0 else Sum(xs[..|xs| - 1], f) + f(xs[|xs| - 1])
  }

  lemma {:induction false} SumSplits<T>(a: seq<T>, b: seq<T>, f: T -> nat)
    ensures Sum(a + b, f) == Sum(a, f) + Sum(b, f)
    decreases |b|
  {
    if b == [] {
      assert a + b == a;
    } else {
      var n := |b| - 1;
      SumSplits(a, b[..n], f);
      assert (a + b)[..|a + b| - 1] == a + b[..n];
    }
  }

  lemma SumOfOne<T>(x: T, f: T -> nat)
    ensures Sum([x], f) == f(x)
  {
    assert [x][..0] == [];
  }

  lemma SumAround<T>(xs: seq<T>, k: nat, f: T -> nat)
    requires k < |xs|
    ensures Sum(xs, f) == Sum(xs[..k], f) + f(xs[k]) + Sum(xs[k + 1..], f)
  {
    SumOfThree(xs[..k], xs[k], xs[k + 1..], f);
    assert xs == xs[..k] + [xs[k]] + xs[k + 1..];
  }

  lemma SumOfThree<T>(a: seq<T>, x: T, b: seq<T>, f: T -> nat)
    ensures Sum(a + [x] + b, f) == Sum(a, f) + f(x) + Sum(b, f)
  {
    SumSplits(a + [x], b, f);
    SumSplits(a, [x], f);
    SumOfOne(x, f);
  }

  lemma SumUpdate<T>(xs: seq<T>, k: nat, x: T, f: T -> nat)
    requires k < |xs|
    ensures Sum(xs[k := x], f) + f(xs[k]) == Sum(xs, f) + f(x)
  {
    SumAround(xs, k, f);
    SumAround(xs[k := x], k, f);
    assert xs[k := x][..k] == xs[..k] && xs[k := x][k + 1..] == xs[k + 1..];
  }

  lemma SumOfFirst<T>(xs: seq<T>, f: T -> nat)
    requires xs != []
    ensures Sum(xs, f) == f(xs[0]) + Sum(xs[1..], f)
  {
    SumAround(xs, 0, f);
  }

  lemma Distribute(a: nat, b: nat, c: nat)
    ensures a * (b + c) == a * b + a * c
  {
  }

  lemma {:induction false} SumAtMost<T>(xs: seq<T>, f: T -> nat, g: T -> nat, bound: nat)
    requires forall x :: x in xs ==> f(x) <= bound * g(x)
    ensures Sum(xs, f) <= bound * Sum(xs, g)
    decreases |xs|
  {
    if xs != [] {
      var n := |xs| - 1;
      SumAtMost(xs[..n], f, g, bound);
      Distribute(bound, Sum(xs[..n], g), g(xs[n]));
    }
  }

  lemma {:induction false} SumOfSums<T>(xs: seq<T>, f: T -> nat, g: T -> nat, h: T -> nat)
    requires forall x :: x in xs ==> g(x) == f(x) + h(x)
    ensures Sum(xs, g) == Sum(xs, f) + Sum(xs, h)
    decreases |xs|
  {
    if xs != [] { SumOfSums(xs[..|xs| - 1], f, g, h); }
  }

  // ---- One balance for all steps ----

  /** What the items add up to over all places: an item weighs `f`, and `g` once its latest judging is
      over. */
  ghost function Total(s: State, f: Item -> nat, g: Item -> nat): nat {
    Sum(s.queue, f) + Sum(s.workers, Held(f, g)) + Sum(s.dlq, f) + Sum(s.trimmed, f)
      + Sum(s.persisted, g) + Sum(s.discarded, g)
  }

  ghost function Held(f: Item -> nat, g: Item -> nat): Worker -> nat {
    (w: Worker) => Load(w, f, g)
  }

  ghost function Load(w: Worker, f: Item -> nat, g: Item -> nat): nat {
    if w.phase.PuttingBack? then Sum(w.batch, g) else Sum(w.batch, f)
  }

  lemma WorkerBalance(workers: seq<Worker>, k: nat, w: Worker, f: Item -> nat, g: Item -> nat)
    requires k < |workers|
    ensures Sum(workers[k := w], Held(f, g)) + Load(workers[k], f, g) == Sum(workers, Held(f, g)) + Load(w, f, g)
  {
    SumUpdate(workers, k, w, Held(f, g));
  }

  /** A judging adds `h` to the weight of an item, whether it fails or not. */
  ghost predicate Weights(f: Item -> nat, g: Item -> nat, h: Item -> nat) {
    forall item: Item :: g(item) == f(item) + h(item) && f(Failed(item)) == g(item)
  }

  ghost function Entered(s: State, step: Step, f: Item -> nat): nat {
    match step
    case Enqueue(traceId, body) => f(Item(s.nextId, traceId, 0, body))
    case _ => 0
  }

  lemma SumAfterFirst(x: Item, xs: seq<Item>, f: Item -> nat)
    ensures Sum([x] + xs, f) == f(x) + Sum(xs, f)
  {
    SumSplits([x], xs, f);
    SumOfOne(x, f);
  }

  lemma SumAfterLast(xs: seq<Item>, x: Item, f: Item -> nat)
    ensures Sum(xs + [x], f) == Sum(xs, f) + f(x)
  {
    assert (xs + [x])[..|xs|] == xs;
  }

  lemma CutBalance(list: seq<Item>, kept: seq<Item>, trimmed: seq<Item>, f: Item -> nat)
    requires kept <= list
    ensures Sum(kept, f) + Sum(trimmed + list[|kept|..], f) == Sum(list, f) + Sum(trimmed, f)
  {
    SumSplits(trimmed, list[|kept|..], f);
    SumSplits(kept, list[|kept|..], f);
    assert list == kept + list[|kept|..];
  }

  /** What a step does to the total: `entered` comes in, and `h` is added for every item judged. */
  ghost predicate Balance(s: State, s': State, f: Item -> nat, g: Item -> nat, h: Item -> nat, entered: nat) {
    Total(s', f, g) + Sum(s.judged, h) == Total(s, f, g) + Sum(s'.judged, h) + entered
  }

  lemma EnqueueBalance(s: State, traceId: string, body: string, f: Item -> nat, g: Item -> nat, h: Item -> nat)
    ensures Balance(s, DoEnqueue(s, traceId, body), f, g, h, f(Item(s.nextId, traceId, 0, body)))
  {
    SumAfterFirst(Item(s.nextId, traceId, 0, body), s.queue, f);
  }

  lemma TrimQueueBalance(s: State, cfg: Config, f: Item -> nat, g: Item -> nat, h: Item -> nat)
    ensures Balance(s, DoTrimQueue(s, cfg), f, g, h, 0)
  {
    CutBalance(s.queue, Trim(s.queue, cfg.maxlen), s.trimmed, f);
  }

  lemma TrimDlqBalance(s: State, cfg: Config, f: Item -> nat, g: Item -> nat, h: Item -> nat)
    ensures Balance(s, DoTrimDlq(s, cfg), f, g, h, 0)
  {
    CutBalance(s.dlq, Trim(s.dlq, cfg.dlqMaxlen), s.trimmed, f);
  }

  lemma PopBalance(s: State, cfg: Config, w: nat, f: Item -> nat, g: Item -> nat, h: Item -> nat)
    requires w < |s.workers| && s.workers[w].phase.Collecting?
    ensures Balance(s, DoPop(s, cfg, w), f, g, h, 0)
  {
    WorkerBalance(s.workers, w, DoPop(s, cfg, w).workers[w], f, g);
    if s.workers[w].phase.popped < cfg.batchSize && s.queue != [] {
      SumAfterLast(s.workers[w].batch, s.queue[|s.queue| - 1], f);
    }
  }

  lemma FailBalance(s: State, cfg: Config, w: nat, f: Item -> nat, g: Item -> nat, h: Item -> nat)
    requires w < |s.workers| && s.workers[w].phase.Evaluating? && Weights(f, g, h)
    ensures Balance(s, DoSettle(s, cfg, w, false), f, g, h, 0)
  {
    var batch := s.workers[w].batch;
    SumOfSums(batch, f, g, h);
    SumSplits(s.judged, batch, h);
    WorkerBalance(s.workers, w, Worker(batch, PuttingBack), f, g);
  }

  lemma WriteBalance(s: State, cfg: Config, w: nat, f: Item -> nat, g: Item -> nat, h: Item -> nat)
    requires w < |s.workers| && s.workers[w].phase.Evaluating? && Weights(f, g, h)
    ensures Balance(s, DoSettle(s, cfg, w, true), f, g, h, 0)
  {
    var batch := s.workers[w].batch;
    SumOfSums(batch, f, g, h);
    SumSplits(s.judged, batch, h);
    WorkerBalance(s.workers, w, IDLE, f, g);
    if cfg.connected { SumSplits(s.persisted, batch, g); } else { SumSplits(s.discarded, batch, g); }
  }

  lemma FirstLeaves(batch: seq<Item>, f: Item -> nat, g: Item -> nat, h: Item -> nat)
    requires batch != [] && Weights(f, g, h)
    ensures Sum(batch, g) == f(Failed(batch[0])) + Sum(batch[1..], g)
  {
    SumOfFirst(batch, g);
  }

  lemma RequeueBalance(s: State, w: nat, f: Item -> nat, g: Item -> nat, h: Item -> nat)
    requires w < |s.workers| && s.workers[w].phase.PuttingBack? && s.workers[w].batch != [] && Weights(f, g, h)
    ensures var batch := s.workers[w].batch;
            var left := s.(workers := s.workers[w := Worker(batch[1..], PuttingBack)]);
            && Balance(s, left.(queue := [Failed(batch[0])] + s.queue), f, g, h, 0)
            && Balance(s, left.(dlq := [Failed(batch[0])] + s.dlq), f, g, h, 0)
  {
    var batch := s.workers[w].batch;
    WorkerBalance(s.workers, w, Worker(batch[1..], PuttingBack), f, g);
    FirstLeaves(batch, f, g, h);
    SumAfterFirst(Failed(batch[0]), s.dlq, f);
    SumAfterFirst(Failed(batch[0]), s.queue, f);
  }

  lemma PutBackBalance(s: State, cfg: Config, w: nat, f: Item -> nat, g: Item -> nat, h: Item -> nat)
    requires w < |s.workers| && s.workers[w].phase.PuttingBack? && Weights(f, g, h)
    ensures Balance(s, DoPutBackOne(s, cfg, w), f, g, h, 0)
  {
    if s.workers[w].batch == [] {
      WorkerBalance(s.workers, w, IDLE, f, g);
    } else {
      RequeueBalance(s, w, f, g, h);
    }
  }

  lemma WorkerStepBalance(s: State, cfg: Config, step: Step, f: Item -> nat, g: Item -> nat, h: Item -> nat)
    requires Weights(f, g, h) && (step.Pop? || step.Settle? || step.PutBackOne?)
    ensures Balance(s, Do(s, cfg, step), f, g, h, 0)
  {
    var s' := Do(s, cfg, step);
    if s' != s {
      match step
      case Pop(w) =>
        assert s' == DoPop(s, cfg, w);
        PopBalance(s, cfg, w, f, g, h);
      case Settle(w, written) =>
        assert s' == DoSettle(s, cfg, w, written);
        if written { WriteBalance(s, cfg, w, f, g, h); } else { FailBalance(s, cfg, w, f, g, h); }
      case PutBackOne(w) =>
        assert s' == DoPutBackOne(s, cfg, w);
        PutBackBalance(s, cfg, w, f, g, h);
    }
  }

  lemma StepBalance(s: State, cfg: Config, step: Step, f: Item -> nat, g: Item -> nat, h: Item -> nat)
    requires Weights(f, g, h)
    ensures Balance(s, Do(s, cfg, step), f, g, h, Entered(s, step, f))
  {
    match step
    case Enqueue(traceId, body) => EnqueueBalance(s, traceId, body, f, g, h);
    case TrimQueue => TrimQueueBalance(s, cfg, f, g, h);
    case TrimDlq => TrimDlqBalance(s, cfg, f, g, h);
    case _ => WorkerStepBalance(s, cfg, step, f, g, h);
  }

  lemma InitIsEmpty(workers: nat, f: Item -> nat, g: Item -> nat)
    ensures Total(Init(workers), f, g) == 0
  {
    IdleWorkersHoldNothing(workers, f, g);
  }

  lemma {:induction false} IdleWorkersHoldNothing(n: nat, f: Item -> nat, g: Item -> nat)
    ensures Sum(seq(n, _ => IDLE), Held(f, g)) == 0
  {
    if n > 0 {
      IdleWorkersHoldNothing(n - 1, f, g);
      assert seq(n, _ => IDLE)[..n - 1] == seq(n - 1, _ => IDLE);
    }
  }

  // ---- Every item is in exactly one place ----

  function One(id: nat): Item -> nat {
    (item: Item) => if item.id == id then 1 else 0
  }

  function Zero(): Item -> nat {
    (item: Item) => 0
  }

  function Retries(id: nat, more: nat): Item -> nat {
    (item: Item) => if item.id == id then item.retries + more else 0
  }

  lemma NothingWeighsNothing(xs: seq<Item>)
    ensures Sum(xs, Zero()) == 0
  {
  }

  /** An item that has been enqueued is in exactly one place: waiting, held by one worker, a dead
      letter, trimmed, persisted, or (without a database) dropped. */
  ghost predicate InOnePlace(s: State, id: nat) {
    Total(s, One(id), One(id)) == if id < s.nextId then 1 else 0
  }

  lemma BalanceKeepsOnePlace(s: State, s': State, id: nat, entered: nat)
    requires InOnePlace(s, id) && Balance(s, s', One(id), One(id), Zero(), entered)
    requires entered == (if id < s'.nextId then 1 else 0) - (if id < s.nextId then 1 else 0)
    ensures InOnePlace(s', id)
  {
    NothingWeighsNothing(s.judged);
    NothingWeighsNothing(s'.judged);
  }

  lemma EntersOnce(s: State, cfg: Config, step: Step, id: nat)
    ensures Entered(s, step, One(id)) == (if id < Do(s, cfg, step).nextId then 1 else 0) - (if id < s.nextId then 1 else 0)
  {
  }

  lemma StepKeepsOnePlace(s: State, cfg: Config, step: Step, id: nat)
    requires InOnePlace(s, id)
    ensures InOnePlace(Do(s, cfg, step), id)
  {
    StepBalance(s, cfg, step, One(id), One(id), Zero());
    EntersOnce(s, cfg, step, id);
    BalanceKeepsOnePlace(s, Do(s, cfg, step), id, Entered(s, step, One(id)));
  }

  lemma {:induction false} EveryItemIsInOnePlace(workers: nat, cfg: Config, steps: seq<Step>, id: nat)
    ensures InOnePlace(Exec(Init(workers), cfg, steps), id)
    decreases |steps|
  {
    if steps == [] {
      InitIsEmpty(workers, One(id), One(id));
    } else {
      var n := |steps| - 1;
      EveryItemIsInOnePlace(workers, cfg, steps[..n], id);
      StepKeepsOnePlace(Exec(Init(workers), cfg, steps[..n]), cfg, steps[n], id);
    }
  }

  /** The retries recorded on an item, wherever it is, are the judgings it has had. */
  ghost predicate RetriesMatch(s: State, id: nat) {
    Total(s, Retries(id, 0), Retries(id, 1)) == Sum(s.judged, One(id))
  }

  lemma StepKeepsRetriesMatch(s: State, cfg: Config, step: Step, id: nat)
    requires RetriesMatch(s, id)
    ensures RetriesMatch(Do(s, cfg, step), id)
  {
    StepBalance(s, cfg, step, Retries(id, 0), Retries(id, 1), One(id));
    assert Entered(s, step, Retries(id, 0)) == 0;
  }

  lemma {:induction false} RetriesCountJudgings(workers: nat, cfg: Config, steps: seq<Step>, id: nat)
    ensures RetriesMatch(Exec(Init(workers), cfg, steps), id)
    decreases |steps|
  {
    if steps == [] {
      InitIsEmpty(workers, Retries(id, 0), Retries(id, 1));
    } else {
      var n := |steps| - 1;
      RetriesCountJudgings(workers, cfg, steps[..n], id);
      StepKeepsRetriesMatch(Exec(Init(workers), cfg, steps[..n]), cfg, steps[n], id);
    }
  }

  // ---- Retries are bounded ----

  /** A negative `max_retries` allows no retry, as zero does. */
  function Allowed(cfg: Config): nat {
    if cfg.maxRetries > 0 then cfg.maxRetries else 0
  }

  ghost predicate AtMost(items: seq<Item>, bound: nat) {
    forall item :: item in items ==> item.retries <= bound
  }

  ghost predicate Exactly(items: seq<Item>, n: nat) {
    forall item :: item in items ==> item.retries == n
  }

  /** Waiting items and items in flight have retries left; dead letters have used one more than
      allowed. */
  ghost predicate RetriesInv(s: State, cfg: Config) {
    && AtMost(s.queue, Allowed(cfg))
    && (forall w :: w in s.workers ==> AtMost(w.batch, Allowed(cfg)))
    && Exactly(s.dlq, Allowed(cfg) + 1)
    && AtMost(s.trimmed, Allowed(cfg) + 1)
    && AtMost(s.persisted, Allowed(cfg)) && AtMost(s.discarded, Allowed(cfg))
  }

  lemma StepKeepsRetries(s: State, cfg: Config, step: Step)
    requires RetriesInv(s, cfg)
    ensures RetriesInv(Do(s, cfg, step), cfg)
  {
  }

  lemma {:induction false} RunsKeepRetries(workers: nat, cfg: Config, steps: seq<Step>)
    ensures RetriesInv(Exec(Init(workers), cfg, steps), cfg)
    decreases |steps|
  {
    if steps != [] {
      var n := |steps| - 1;
      RunsKeepRetries(workers, cfg, steps[..n]);
      StepKeepsRetries(Exec(Init(workers), cfg, steps[..n]), cfg, steps[n]);
    }
  }

  // ---- An item is judged a bounded number of times ----

  lemma ListRetries(items: seq<Item>, id: nat, more: nat, bound: nat)
    requires forall item :: item in items ==> item.retries + more <= bound
    ensures Sum(items, Retries(id, more)) <= bound * Sum(items, One(id))
  {
    SumAtMost(items, Retries(id, more), One(id), bound);
  }

  lemma WorkerRetries(workers: seq<Worker>, id: nat, bound: nat)
    requires forall w :: w in workers ==> AtMost(w.batch, bound)
    ensures Sum(workers, Held(Retries(id, 0), Retries(id, 1))) <= (bound + 1) * Sum(workers, Held(One(id), One(id)))
  {
    forall w | w in workers
      ensures Held(Retries(id, 0), Retries(id, 1))(w) <= (bound + 1) * Held(One(id), One(id))(w)
    {
      ListRetries(w.batch, id, 0, bound + 1);
      ListRetries(w.batch, id, 1, bound + 1);
    }
    SumAtMost(workers, Held(Retries(id, 0), Retries(id, 1)), Held(One(id), One(id)), bound + 1);
  }

  lemma TotalRetries(s: State, cfg: Config, id: nat)
    requires RetriesInv(s, cfg) && InOnePlace(s, id)
    ensures Total(s, Retries(id, 0), Retries(id, 1)) <= Allowed(cfg) + 1
  {
    var bound := Allowed(cfg) + 1;
    ListRetries(s.queue, id, 0, bound);
    WorkerRetries(s.workers, id, Allowed(cfg));
    ListRetries(s.dlq, id, 0, bound);
    ListRetries(s.trimmed, id, 0, bound);
    ListRetries(s.persisted, id, 1, bound);
    ListRetries(s.discarded, id, 1, bound);
    AddUp(bound, Sum(s.queue, Retries(id, 0)), Sum(s.workers, Held(Retries(id, 0), Retries(id, 1))),
          Sum(s.dlq, Retries(id, 0)), Sum(s.trimmed, Retries(id, 0)),
          Sum(s.persisted, Retries(id, 1)), Sum(s.discarded, Retries(id, 1)),
          Sum(s.queue, One(id)), Sum(s.workers, Held(One(id), One(id))), Sum(s.dlq, One(id)),
          Sum(s.trimmed, One(id)), Sum(s.persisted, One(id)), Sum(s.discarded, One(id)));
  }

  lemma AddUp(bound: nat, a: nat, b: nat, c: nat, d: nat, e: nat, f: nat,
              u: nat, v: nat, w: nat, x: nat, y: nat, z: nat)
    requires a <= bound * u && b <= bound * v && c <= bound * w && d <= bound * x && e <= bound * y && f <= bound * z
    requires u + v + w + x + y + z <= 1
    ensures a + b + c + d + e + f <= bound
  {
    assert bound * u + bound * v + bound * w + bound * x + bound * y + bound * z == bound * (u + v + w + x + y + z);
  }

  /** In every run, each item is judged at most `max_retries + 1` times. */
  lemma JudgedABoundedNumberOfTimes(workers: nat, cfg: Config, steps: seq<Step>, id: nat)
    ensures Sum(Exec(Init(workers), cfg, steps).judged, One(id)) <= Allowed(cfg) + 1
  {
    RunsKeepRetries(workers, cfg, steps);
    EveryItemIsInOnePlace(workers, cfg, steps, id);
    RetriesCountJudgings(workers, cfg, steps, id);
    TotalRetries(Exec(Init(workers), cfg, steps), cfg, id);
  }

  // ---- When can an item be dropped? ----

  ghost predicate AllIdle(s: State) {
    forall w :: 0 <= w < |s.workers| ==> s.workers[w] == IDLE
  }

  ghost predicate NoneDropped(s: State, workers: nat, cfg: Config) {
    s.discarded == [] && |s.workers| == workers && (cfg.batchSize <= 0 ==> AllIdle(s))
  }

  lemma StepDropsNothing(s: State, workers: nat, cfg: Config, step: Step)
    requires cfg.connected || workers == 0 || cfg.batchSize <= 0
    requires NoneDropped(s, workers, cfg)
    ensures NoneDropped(Do(s, cfg, step), workers, cfg)
  {
  }

  lemma {:induction false} NothingIsDropped(workers: nat, cfg: Config, steps: seq<Step>)
    requires cfg.connected || workers == 0 || cfg.batchSize <= 0
    ensures NoneDropped(Exec(Init(workers), cfg, steps), workers, cfg)
    decreases |steps|
  {
    if steps != [] {
      var n := |steps| - 1;
      NothingIsDropped(workers, cfg, steps[..n]);
      StepDropsNothing(Exec(Init(workers), cfg, steps[..n]), workers, cfg, steps[n]);
    }
  }

  lemma ExecTake(s: State, cfg: Config, steps: seq<Step>, k: nat)
    requires k < |steps|
    ensures Exec(s, cfg, steps[..k + 1]) == Do(Exec(s, cfg, steps[..k]), cfg, steps[k])
  {
    assert steps[..k + 1][..k] == steps[..k];
  }

  /** An item comes in, the first worker collects and judges it, and there is nowhere to write to. */
  function DroppingRun(traceId: string, body: string): seq<Step> {
    [Enqueue(traceId, body), Pop(0), Pop(0), Settle(0, true)]
  }

  lemma ItemIsCollected(workers: nat, cfg: Config, traceId: string, body: string)
    requires workers > 0 && cfg.batchSize > 0
    ensures var s, item := Exec(Init(workers), cfg, DroppingRun(traceId, body)[..2]), Item(0, traceId, 0, body);
            s.queue == [] && |s.workers| == workers && s.workers[0] == Worker([item], Collecting(1)) && s.discarded == []
  {
    var run, s0 := DroppingRun(traceId, body), Init(workers);
    ExecTake(s0, cfg, run, 0);
    ExecTake(s0, cfg, run, 1);
    assert run[..0] == [];
  }

  lemma ItemIsDropped(workers: nat, cfg: Config, traceId: string, body: string)
    requires !cfg.connected && workers > 0 && cfg.batchSize > 0
    ensures Exec(Init(workers), cfg, DroppingRun(traceId, body)).discarded == [Item(0, traceId, 0, body)]
  {
    var run, s0 := DroppingRun(traceId, body), Init(workers);
    ItemIsCollected(workers, cfg, traceId, body);
    ExecTake(s0, cfg, run, 2);
    ExecTake(s0, cfg, run, 3);
    assert run[..4] == run;
  }

  /** An enqueued item is never dropped, in any run, if and only if there is a database, or no worker that
      ever takes an item. */
  lemma NothingIsDroppedExactly(workers: nat, cfg: Config)
    ensures (forall steps :: Exec(Init(workers), cfg, steps).discarded == [])
            <==> cfg.connected || workers == 0 || cfg.batchSize <= 0
  {
    if cfg.connected || workers == 0 || cfg.batchSize <= 0 {
      forall steps ensures Exec(Init(workers), cfg, steps).discarded == [] {
        NothingIsDropped(workers, cfg, steps);
      }
    } else {
      ItemIsDropped(workers, cfg, [], []);
      assert Exec(Init(workers), cfg, DroppingRun([], [])).discarded != [];
    }
  }
}
