/** First in, first out, over all interleaved runs of the shadow queue.

    Every LPUSH to the queue, of a new item or of a failed one, gets the number of pushes before it as its
    stamp.  The history of stamps is kept beside the machine of `ShadowRuns`, not in it. */
module ShadowOrder {
  import opened ShadowQueue
  import opened ShadowRuns

  /** What was pushed so far, the stamps of the waiting entries, head first, and the stamps of the entries
      that RPOP took and that LTRIM cut off, in the order in which that happened. */
  datatype History = History(pushed: seq<Item>, waiting: seq<nat>, popped: seq<nat>, cut: seq<nat>)

  const NOTHING := History([], [], [], [])

  /** The history after a step from `s` to `s'`: the queue grew at its head, or lost a tail. */
  function Record(h: History, s: State, s': State, step: Step): History
    requires |h.waiting| == |s.queue|
  {
    var n := |s'.queue|;
    if n > |s.queue| then h.(pushed := h.pushed + [s'.queue[0]], waiting := [|h.pushed|] + h.waiting)
    else if step.Pop? then h.(waiting := h.waiting[..n], popped := h.popped + h.waiting[n..])
    else h.(waiting := h.waiting[..n], cut := h.cut + h.waiting[n..])
  }

  /** A step pushes one entry, pops the last one, cuts off a tail, or leaves the queue alone. */
  lemma QueueMoves(s: State, cfg: Config, step: Step)
    ensures var q, q' := s.queue, Do(s, cfg, step).queue;
            || q' == q
            || (|q'| == |q| + 1 && q'[1..] == q)
            || (q' <= q && (step.TrimQueue? || (step.Pop? && |q'| == |q| - 1)))
  {
  }

  function HistoryOf(workers: nat, cfg: Config, steps: seq<Step>): (h: History)
    ensures |h.waiting| == |Exec(Init(workers), cfg, steps).queue|
    decreases |steps|
  {
    if steps == [] then NOTHING
    else
      var n := |steps| - 1;
      var s := Exec(Init(workers), cfg, steps[..n]);
      QueueMoves(s, cfg, steps[n]);
      Record(HistoryOf(workers, cfg, steps[..n]), s, Do(s, cfg, steps[n]), steps[n])
  }

  ghost predicate Increasing(xs: seq<nat>) {
    forall i, j :: 0 <= i < j < |xs| ==> xs[i] < xs[j]
  }

  ghost predicate Decreasing(xs: seq<nat>) {
    forall i, j :: 0 <= i < j < |xs| ==> xs[i] > xs[j]
  }

  ghost predicate AllBelow(xs: seq<nat>, ys: seq<nat>) {
    forall x, y :: x in xs && y in ys ==> x < y
  }

  ghost predicate Stamped(queue: seq<Item>, h: History) {
    && |h.waiting| == |queue|
    && forall i :: 0 <= i < |queue| ==> h.waiting[i] < |h.pushed| && queue[i] == h.pushed[h.waiting[i]]
  }

  /** Waiting entries stand in the order of their pushes, newest at the head; pops happened in the order of
      the pushes; and what has left was pushed before all that waits. */
  ghost predicate InOrder(queue: seq<Item>, h: History) {
    && Stamped(queue, h)
    && Decreasing(h.waiting) && Increasing(h.popped)
    && AllBelow(h.popped, h.waiting) && AllBelow(h.cut, h.waiting)
    && (forall x :: x in h.popped || x in h.cut ==> x < |h.pushed|)
  }

  /** Nothing that was pushed is unaccounted for. */
  ghost predicate Complete(h: History) {
    forall n: nat :: n < |h.pushed| ==> n in h.popped || n in h.cut || n in h.waiting
  }

  lemma PushKeepsOrder(h: History, queue: seq<Item>, item: Item)
    requires InOrder(queue, h) && Complete(h)
    ensures var h' := h.(pushed := h.pushed + [item], waiting := [|h.pushed|] + h.waiting);
            InOrder([item] + queue, h') && Complete(h')
  {
    var waiting := [|h.pushed|] + h.waiting;
    assert waiting[0] == |h.pushed|;
    forall n: nat | n < |h.pushed| + 1 ensures n in h.popped || n in h.cut || n in waiting {
      if n in h.waiting {
        var i :| 0 <= i < |h.waiting| && h.waiting[i] == n;
        assert waiting[i + 1] == n;
      }
    }
    forall x, y | x in h.popped + h.cut && y in waiting ensures x < y {
    }
  }

  /** The tail that leaves is older than all that stays. */
  lemma TailIsOlder(waiting: seq<nat>, n: nat)
    requires Decreasing(waiting) && n <= |waiting|
    ensures Decreasing(waiting[..n]) && AllBelow(waiting[n..], waiting[..n])
    ensures forall x :: x in waiting <==> x in waiting[..n] || x in waiting[n..]
  {
    assert waiting == waiting[..n] + waiting[n..];
  }

  lemma PopKeepsOrder(h: History, queue: seq<Item>)
    requires InOrder(queue, h) && Complete(h) && queue != []
    ensures var n := |queue| - 1;
            var h' := h.(waiting := h.waiting[..n], popped := h.popped + h.waiting[n..]);
            InOrder(queue[..n], h') && Complete(h')
  {
    var n := |queue| - 1;
    TailIsOlder(h.waiting, n);
    assert h.waiting[n..] == [h.waiting[n]];
    forall i | 0 <= i < |h.popped| ensures h.popped[i] < h.waiting[n] {
      assert h.popped[i] in h.popped && h.waiting[n] in h.waiting;
    }
  }

  lemma CutKeepsOrder(h: History, queue: seq<Item>, n: nat)
    requires InOrder(queue, h) && Complete(h) && n <= |queue|
    ensures var h' := h.(waiting := h.waiting[..n], cut := h.cut + h.waiting[n..]);
            InOrder(queue[..n], h') && Complete(h')
  {
    TailIsOlder(h.waiting, n);
  }

  lemma StepKeepsOrder(s: State, cfg: Config, step: Step, h: History)
    requires InOrder(s.queue, h) && Complete(h)
    ensures var s' := Do(s, cfg, step);
            InOrder(s'.queue, Record(h, s, s', step)) && Complete(Record(h, s, s', step))
  {
    var q, q' := s.queue, Do(s, cfg, step).queue;
    QueueMoves(s, cfg, step);
    if |q'| > |q| {
      PushKeepsOrder(h, q, q'[0]);
      assert q' == [q'[0]] + q;
    } else if q' == q {
      assert h.waiting[..|q|] == h.waiting && h.waiting[|q|..] == [];
      assert h.popped + [] == h.popped && h.cut + [] == h.cut;
    } else if step.Pop? {
      PopKeepsOrder(h, q);
    } else {
      CutKeepsOrder(h, q, |q'|);
    }
  }

  /** First in, first out: in every run of any number of enqueuers and workers, with trimming and failed
      batches going back, each pop yields an entry that was pushed later than all that were popped before
      and earlier than all that still wait; and every entry pushed was popped, cut off or still waits. */
  lemma {:induction false} PopsAreFirstInFirstOut(workers: nat, cfg: Config, steps: seq<Step>)
    ensures var h := HistoryOf(workers, cfg, steps);
            InOrder(Exec(Init(workers), cfg, steps).queue, h) && Complete(h)
    decreases |steps|
  {
    if steps != [] {
      var n := |steps| - 1;
      PopsAreFirstInFirstOut(workers, cfg, steps[..n]);
      StepKeepsOrder(Exec(Init(workers), cfg, steps[..n]), cfg, steps[n], HistoryOf(workers, cfg, steps[..n]));
    }
  }

  /** The entry that a pop hands to its worker is the oldest one waiting. */
  lemma PopTakesTheOldest(workers: nat, cfg: Config, steps: seq<Step>, w: nat)
    requires var s := Exec(Init(workers), cfg, steps);
             w < |s.workers| && s.workers[w].phase.Collecting? && Do(s, cfg, Pop(w)).queue != s.queue
    ensures var s, h := Exec(Init(workers), cfg, steps), HistoryOf(workers, cfg, steps);
            && h.waiting != []
            && var oldest := h.waiting[|h.waiting| - 1];
               && (forall x :: x in h.waiting ==> oldest <= x) && oldest < |h.pushed|
               && Do(s, cfg, Pop(w)).workers[w].batch == s.workers[w].batch + [h.pushed[oldest]]
               && Record(h, s, Do(s, cfg, Pop(w)), Pop(w)).popped == h.popped + [oldest]
  {
    PopsAreFirstInFirstOut(workers, cfg, steps);
    var h := HistoryOf(workers, cfg, steps);
    var n := |h.waiting| - 1;
    assert h.waiting[n..] == [h.waiting[n]];
  }

  /** Without a bound on the list nothing is cut off: the pops are the pushes, in their order, from the
      first one on. */
  lemma {:induction false} WithoutTrimsPopsArePushes(workers: nat, cfg: Config, steps: seq<Step>)
    requires cfg.maxlen <= 0
    ensures var h := HistoryOf(workers, cfg, steps);
            && h.cut == [] && |h.popped| + |h.waiting| == |h.pushed|
            && (forall k :: 0 <= k < |h.popped| ==> h.popped[k] == k)
            && (forall i :: 0 <= i < |h.waiting| ==> h.waiting[i] == |h.pushed| - 1 - i)
    decreases |steps|
  {
    if steps != [] {
      var n := |steps| - 1;
      var s, h := Exec(Init(workers), cfg, steps[..n]), HistoryOf(workers, cfg, steps[..n]);
      WithoutTrimsPopsArePushes(workers, cfg, steps[..n]);
      QueueMoves(s, cfg, steps[n]);
      assert h.waiting[..|s.queue|] == h.waiting;
    }
  }
}
