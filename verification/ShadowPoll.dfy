/** A poll of the worker (module `ShadowWorker`) is one schedule of the interleaved machine (module
    `ShadowRuns`): the steps of one worker with no other step in between. */
module ShadowPoll {
  import opened Options
  import opened ShadowQueue
  import opened ShadowRuns
  import W = ShadowWorker

  function Times(step: Step, n: nat): (steps: seq<Step>)
    ensures |steps| == n
  {
    if n == 0 then [] else Times(step, n - 1) + [step]
  }

  lemma {:induction false} ExecSplit(s: State, cfg: Config, a: seq<Step>, b: seq<Step>)
    ensures Exec(s, cfg, a + b) == Exec(Exec(s, cfg, a), cfg, b)
    decreases |b|
  {
    if b == [] {
      assert a + b == a;
    } else {
      var n := |b| - 1;
      ExecSplit(s, cfg, a, b[..n]);
      assert (a + b)[..|a + b| - 1] == a + b[..n];
    }
  }

  lemma ExecOnce(s: State, cfg: Config, step: Step)
    ensures Exec(s, cfg, [step]) == Do(s, cfg, step)
  {
    assert [step][..0] == [];
  }

  lemma ExecNext(s: State, cfg: Config, step: Step, n: nat)
    ensures Exec(s, cfg, Times(step, n + 1)) == Do(Exec(s, cfg, Times(step, n)), cfg, step)
  {
    assert Times(step, n + 1)[..n] == Times(step, n);
  }

  lemma WrapPrefix(items: seq<Item>, n: nat)
    requires n <= |items|
    ensures Wrap(items)[..n] == Wrap(items[..n])
  {
  }

  /** The items that the last `n` RPOPs of a list of items yield. */
  function Oldest(queue: seq<Item>, n: nat): (items: seq<Item>)
    requires n <= |queue|
    ensures |items| == n
  {
    if n == 0 then [] else Oldest(queue, n - 1) + [queue[|queue| - n]]
  }

  lemma {:induction false} OldestArePopped(queue: seq<Item>, n: nat)
    requires n <= |queue|
    ensures PopItems(Wrap(queue), n) == Oldest(queue, n)
  {
    if n > 0 { OldestArePopped(queue, n - 1); }
  }

  function Holding(s: State, w: nat, worker: Worker): State
    requires w < |s.workers|
  {
    s.(workers := s.workers[w := worker])
  }

  function Collected(s: State, w: nat, k: nat): State
    requires w < |s.workers| && k <= |s.queue|
  {
    Holding(s.(queue := s.queue[..|s.queue| - k]), w, Worker(Oldest(s.queue, k), Collecting(k)))
  }

  lemma {:induction false} PopsRun(s: State, cfg: Config, w: nat, k: nat)
    requires w < |s.workers| && s.workers[w] == IDLE && k <= |s.queue| && (k > 0 ==> k <= cfg.batchSize)
    ensures Exec(s, cfg, Times(Pop(w), k)) == Collected(s, w, k)
    decreases k
  {
    if k == 0 {
      assert s.workers[w := IDLE] == s.workers && s.queue[..|s.queue|] == s.queue;
    } else {
      PopsRun(s, cfg, w, k - 1);
      ExecNext(s, cfg, Pop(w), k - 1);
      NextPop(s, cfg, w, k - 1);
    }
  }

  lemma NextPop(s: State, cfg: Config, w: nat, k: nat)
    requires w < |s.workers| && k < |s.queue| && k < cfg.batchSize
    ensures Do(Collected(s, w, k), cfg, Pop(w)) == Collected(s, w, k + 1)
  {
    var rest := s.queue[..|s.queue| - k];
    assert rest[..|rest| - 1] == s.queue[..|s.queue| - (k + 1)];
  }

  /** The pop that finds the batch full or the list empty ends the collecting. */
  lemma LastPop(s: State, cfg: Config, w: nat, k: nat)
    requires w < |s.workers| && k == W.Popped(Wrap(s.queue), cfg.batchSize)
    ensures var batch := Oldest(s.queue, k);
            Do(Collected(s, w, k), cfg, Pop(w))
            == Holding(Collected(s, w, k), w, if batch == [] then IDLE else Worker(batch, Evaluating))
  {
  }

  /** The worker `w` of `t` puts its batch back from `s` on: `k` items are done. */
  ghost predicate PutBackSoFar(s: State, t: State, cfg: Config, w: nat, batch: seq<Item>, k: nat)
    requires k <= |batch|
  {
    && w < |t.workers| && t.workers[w] == Worker(batch[k..], PuttingBack)
    && Wrap(t.queue) == PushAll(Wrap(s.queue), Retried(batch[..k], cfg.maxRetries))
    && t.dlq == PushAll(s.dlq, GivenUp(batch[..k], cfg.maxRetries))
  }

  lemma WrapPush(queue: seq<Item>, item: Item)
    ensures Wrap([item] + queue) == [Good(item)] + Wrap(queue)
  {
  }

  lemma PutBackStep(t: State, cfg: Config, w: nat, batch: seq<Item>, k: nat)
    requires k < |batch| && w < |t.workers| && t.workers[w] == Worker(batch[k..], PuttingBack)
    ensures var t' := Do(t, cfg, PutBackOne(w));
            var item := Failed(batch[k]);
            && w < |t'.workers| && t'.workers[w] == Worker(batch[k + 1..], PuttingBack)
            && (if item.retries > cfg.maxRetries then t'.queue == t.queue && t'.dlq == [item] + t.dlq
                else t'.dlq == t.dlq && t'.queue == [item] + t.queue)
  {
    assert batch[k..][1..] == batch[k + 1..];
  }

  lemma NextPutBack(s: State, t: State, cfg: Config, w: nat, batch: seq<Item>, k: nat)
    requires k < |batch| && PutBackSoFar(s, t, cfg, w, batch, k)
    ensures PutBackSoFar(s, Do(t, cfg, PutBackOne(w)), cfg, w, batch, k + 1)
  {
    PutBackStep(t, cfg, w, batch, k);
    PutBackLists(t.queue, Wrap(s.queue), s.dlq, cfg, batch, k);
  }

  /** The two lists of a store after one more item. */
  lemma PutBackLists(queue: seq<Item>, queue0: seq<Payload>, dlq0: seq<Item>, cfg: Config, batch: seq<Item>, k: nat)
    requires k < |batch| && Wrap(queue) == PushAll(queue0, Retried(batch[..k], cfg.maxRetries))
    ensures var item := Failed(batch[k]);
            var back := PushAll(queue0, Retried(batch[..k + 1], cfg.maxRetries));
            var gone := PushAll(dlq0, GivenUp(batch[..k + 1], cfg.maxRetries));
            if item.retries > cfg.maxRetries
            then back == Wrap(queue) && gone == [item] + PushAll(dlq0, GivenUp(batch[..k], cfg.maxRetries))
            else back == Wrap([item] + queue) && gone == PushAll(dlq0, GivenUp(batch[..k], cfg.maxRetries))
  {
    var item := Failed(batch[k]);
    assert batch[..k] + [batch[k]] == batch[..k + 1];
    OneMoreFailed(batch[..k], batch[k], cfg.maxRetries);
    var back, gone := Retried(batch[..k], cfg.maxRetries), GivenUp(batch[..k], cfg.maxRetries);
    if item.retries > cfg.maxRetries {
      assert back + [] == back;
      PushLast(dlq0, gone, item);
    } else {
      assert gone + [] == gone;
      PushLast(queue0, back, Good(item));
      WrapPush(queue, item);
    }
  }

  lemma {:induction false} PutBacksRun(s: State, t: State, cfg: Config, w: nat, batch: seq<Item>, k: nat)
    requires k <= |batch| && PutBackSoFar(s, t, cfg, w, batch, 0)
    ensures PutBackSoFar(s, Exec(t, cfg, Times(PutBackOne(w), k)), cfg, w, batch, k)
    decreases k
  {
    if k > 0 {
      var before := Exec(t, cfg, Times(PutBackOne(w), k - 1));
      PutBacksRun(s, t, cfg, w, batch, k - 1);
      assert Exec(t, cfg, Times(PutBackOne(w), k)) == Do(before, cfg, PutBackOne(w)) by {
        ExecNext(t, cfg, PutBackOne(w), k - 1);
      }
      NextPutBack(s, before, cfg, w, batch, k - 1);
    } else {
      assert Exec(t, cfg, Times(PutBackOne(w), 0)) == t;
    }
  }

  lemma WrapTrim(queue: seq<Item>, maxlen: int)
    ensures Wrap(Trim(queue, maxlen)) == Trim(Wrap(queue), maxlen)
  {
  }

  /** Queue and dead letters of the machine are those of the store. */
  ghost predicate SameLists(s: State, store: W.Store) {
    Wrap(s.queue) == store.queue && s.dlq == store.dlq
  }

  /** A failed batch: put back item by item, then both lists are cut. */
  function Failing(w: nat, n: nat): seq<Step> {
    [Settle(w, false)] + (Times(PutBackOne(w), n) + ([TrimQueue] + [TrimDlq]))
  }

  lemma TrimsRun(t: State, cfg: Config)
    ensures var end := Exec(t, cfg, [TrimQueue] + [TrimDlq]);
            end.queue == Trim(t.queue, cfg.maxlen) && end.dlq == Trim(t.dlq, cfg.dlqMaxlen)
  {
    ExecSplit(t, cfg, [TrimQueue], [TrimDlq]);
    ExecOnce(t, cfg, TrimQueue);
    ExecOnce(Do(t, cfg, TrimQueue), cfg, TrimDlq);
  }

  lemma FailingRuns(s: State, cfg: Config, w: nat, store: W.Store)
    requires w < |s.workers| && s.workers[w].phase.Evaluating? && SameLists(s, store)
    ensures var batch := s.workers[w].batch;
            SameLists(Exec(s, cfg, Failing(w, |batch|)), W.PutBack(store, cfg, batch))
  {
    var batch := s.workers[w].batch;
    var t := Do(s, cfg, Settle(w, false));
    ExecOnce(s, cfg, Settle(w, false));
    ExecSplit(s, cfg, [Settle(w, false)], Times(PutBackOne(w), |batch|) + ([TrimQueue] + [TrimDlq]));
    ExecSplit(t, cfg, Times(PutBackOne(w), |batch|), [TrimQueue] + [TrimDlq]);
    assert batch[0..] == batch && batch[..0] == [] && batch[..|batch|] == batch;
    PutBacksRun(s, t, cfg, w, batch, |batch|);
    var back := Exec(t, cfg, Times(PutBackOne(w), |batch|));
    TrimsRun(back, cfg);
    WrapTrim(back.queue, cfg.maxlen);
  }

  lemma WrittenRuns(s: State, cfg: Config, w: nat, store: W.Store)
    requires w < |s.workers| && s.workers[w].phase.Evaluating? && SameLists(s, store)
    ensures SameLists(Exec(s, cfg, [Settle(w, true)]), store)
  {
    ExecOnce(s, cfg, Settle(w, true));
  }

  /** What follows once the batch is collected. */
  function Settling(cfg: Config, w: nat, batch: seq<Item>, rows: Option<seq<W.Row>>, o: W.Outcome): seq<Step> {
    if W.Counted(cfg, batch, rows, o).None? then Failing(w, |batch|) else [Settle(w, true)]
  }

  lemma SettlingRuns(s: State, cfg: Config, w: nat, rows: Option<seq<W.Row>>, o: W.Outcome, store: W.Store)
    requires w < |s.workers| && s.workers[w].phase.Evaluating? && SameLists(s, store)
    ensures var batch := s.workers[w].batch;
            SameLists(Exec(s, cfg, Settling(cfg, w, batch, rows, o)), W.Settle(store, cfg, batch, rows, o))
  {
    if W.Counted(cfg, s.workers[w].batch, rows, o).None? {
      FailingRuns(s, cfg, w, store);
    } else {
      WrittenRuns(s, cfg, w, store);
    }
  }

  lemma CollectingRuns(s: State, cfg: Config, w: nat, n: nat)
    requires w < |s.workers| && s.workers[w] == IDLE && n == W.Popped(Wrap(s.queue), cfg.batchSize)
    ensures var batch := Oldest(s.queue, n);
            Exec(s, cfg, Times(Pop(w), n + 1))
            == Holding(Collected(s, w, n), w, if batch == [] then IDLE else Worker(batch, Evaluating))
  {
    PopsRun(s, cfg, w, n);
    ExecNext(s, cfg, Pop(w), n);
    LastPop(s, cfg, w, n);
  }

  function Popping(store: W.Store, n: nat): W.Store
    requires n <= |store.queue|
  {
    store.(queue := store.queue[..|store.queue| - n])
  }

  /** A worker has collected `batch`, or found nothing. */
  ghost predicate Ready(t: State, w: nat, batch: seq<Item>, popped: W.Store) {
    && w < |t.workers| && t.workers[w] == (if batch == [] then IDLE else Worker(batch, Evaluating))
    && SameLists(t, popped)
  }

  lemma CollectingIsReady(s: State, cfg: Config, w: nat, n: nat, store: W.Store)
    requires w < |s.workers| && s.workers[w] == IDLE && n == W.Popped(Wrap(s.queue), cfg.batchSize)
    requires SameLists(s, store)
    ensures Ready(Exec(s, cfg, Times(Pop(w), n + 1)), w, Oldest(s.queue, n), Popping(store, n))
  {
    CollectingRuns(s, cfg, w, n);
    WrapPrefix(s.queue, |s.queue| - n);
  }

  function Rest(cfg: Config, w: nat, batch: seq<Item>, rows: Option<seq<W.Row>>, o: W.Outcome): seq<Step> {
    if batch == [] then [] else Settling(cfg, w, batch, rows, o)
  }

  function Settled(popped: W.Store, cfg: Config, batch: seq<Item>, rows: Option<seq<W.Row>>, o: W.Outcome): W.Store {
    if batch == [] then popped else W.Settle(popped, cfg, batch, rows, o)
  }

  lemma RestRuns(t: State, cfg: Config, w: nat, batch: seq<Item>, rows: Option<seq<W.Row>>, o: W.Outcome, popped: W.Store)
    requires Ready(t, w, batch, popped)
    ensures SameLists(Exec(t, cfg, Rest(cfg, w, batch, rows, o)), Settled(popped, cfg, batch, rows, o))
  {
    if batch != [] { SettlingRuns(t, cfg, w, rows, o, popped); }
  }

  /** The steps of one poll, for the rows that the judge yields. */
  function Steps(s: State, cfg: Config, w: nat, rows: Option<seq<W.Row>>, o: W.Outcome): seq<Step> {
    var n := W.Popped(Wrap(s.queue), cfg.batchSize);
    Times(Pop(w), n + 1) + Rest(cfg, w, Oldest(s.queue, n), rows, o)
  }

  /** The store after it. */
  function Polled(store: W.Store, cfg: Config, rows: Option<seq<W.Row>>, o: W.Outcome): W.Store {
    var n := W.Popped(store.queue, cfg.batchSize);
    Settled(Popping(store, n), cfg, PopItems(store.queue, n), rows, o)
  }

  lemma StepsRun(s: State, cfg: Config, w: nat, rows: Option<seq<W.Row>>, o: W.Outcome, store: W.Store)
    requires w < |s.workers| && s.workers[w] == IDLE && SameLists(s, store)
    ensures SameLists(Exec(s, cfg, Steps(s, cfg, w, rows, o)), Polled(store, cfg, rows, o))
  {
    var n := W.Popped(Wrap(s.queue), cfg.batchSize);
    var batch, pops := Oldest(s.queue, n), Times(Pop(w), n + 1);
    OldestArePopped(s.queue, n);
    CollectingIsReady(s, cfg, w, n, store);
    ExecSplit(s, cfg, pops, Rest(cfg, w, batch, rows, o));
    RestRuns(Exec(s, cfg, pops), cfg, w, batch, rows, o, Popping(store, n));
  }

  /** The rows that the judge yields for the batch of the next poll. */
  function Judged(store: W.Store, cfg: Config, o: W.Outcome): Option<seq<W.Row>> {
    W.Evaluate(PopItems(store.queue, W.Popped(store.queue, cfg.batchSize)), o.primary, o.fallback)
  }

  lemma PolledIsPoll(store: W.Store, cfg: Config, rows: Option<seq<W.Row>>, o: W.Outcome)
    requires rows == Judged(store, cfg, o)
    ensures Polled(store, cfg, rows, o) == W.Poll(store, cfg, o)
  {
  }

  /** From any state of the machine, an idle worker that takes the steps of a poll with no other step in
      between leaves the queue and the dead letters that the poll of `ShadowWorker` leaves: so what holds
      of all runs holds of the worker's polls. */
  lemma PollIsASchedule(s: State, cfg: Config, w: nat, o: W.Outcome, store: W.Store, rows: Option<seq<W.Row>>)
    requires w < |s.workers| && s.workers[w] == IDLE && SameLists(s, store)
    requires rows == Judged(store, cfg, o)
    ensures SameLists(Exec(s, cfg, Steps(s, cfg, w, rows, o)), W.Poll(store, cfg, o))
  {
    StepsRun(s, cfg, w, rows, o, store);
    PolledIsPoll(store, cfg, rows, o);
  }
}
