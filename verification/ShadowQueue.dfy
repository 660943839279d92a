/** The shadow-trace queue: a bounded Redis list with bounded retries and a dead-letter list.

    Index 0 is the side of LPUSH, the last index the side of RPOP; LTRIM keeps the newest entries. */
module ShadowQueue {
  /** A queued trace.  `id` tells payloads apart; `body` stands for the other fields. */
  datatype Item = Item(id: nat, traceId: string, retries: nat, body: string)

  datatype Payload = Good(item: Item) | Malformed

  function Min(a: int, b: int): int { if a <= b then a else b }

  /** LTRIM key 0 maxlen-1, run only for a positive bound. */
  function Trim<T>(list: seq<T>, maxlen: int): (kept: seq<T>)
    ensures kept <= list
    ensures maxlen > 0 ==> |kept| <= maxlen
    ensures |kept| < |list| ==> |kept| == maxlen
  {
    if maxlen > 0 then list[..Min(|list|, maxlen)] else list
  }

  /** LPUSH of the elements one after the other. */
  function PushAll<T>(list: seq<T>, xs: seq<T>): (r: seq<T>)
    ensures |r| == |list| + |xs|
    decreases |xs|
  {
    if xs == [] then list else [xs[|xs| - 1]] + PushAll(list, xs[..|xs| - 1])
  }

  /** The items that the last `n` RPOPs yield; malformed payloads are skipped. */
  function PopItems(list: seq<Payload>, n: nat): seq<Item>
    requires n <= |list|
  {
    if n == 0 then []
    else PopItems(list, n - 1) + ItemOf(list[|list| - n])
  }

  function ItemOf(p: Payload): seq<Item> {
    match p
    case Good(item) => [item]
    case Malformed => []
  }

  /** The same item with one retry more. */
  function Failed(item: Item): (failed: Item)
    ensures failed.id == item.id && failed.traceId == item.traceId && failed.body == item.body
    ensures failed.retries == item.retries + 1
  {
    item.(retries := item.retries + 1)
  }

  /** The failed items that go back to the queue, and those that are given up. */
  function Retried(items: seq<Item>, maxRetries: int): seq<Payload> {
    if items == [] then []
    else
      var n := |items| - 1;
      Retried(items[..n], maxRetries) + (if items[n].retries + 1 > maxRetries then [] else [Good(Failed(items[n]))])
  }

  function GivenUp(items: seq<Item>, maxRetries: int): seq<Item> {
    if items == [] then []
    else
      var n := |items| - 1;
      GivenUp(items[..n], maxRetries) + (if items[n].retries + 1 > maxRetries then [Failed(items[n])] else [])
  }

  class RedisTraceQueue {
    const maxlen: int
    const dlqMaxlen: int
    const maxRetries: int
    var queue: seq<Payload>
    var dlq: seq<Item>

    constructor (maxlen: int, dlqMaxlen: int, maxRetries: int)
      ensures this.maxlen == maxlen && this.dlqMaxlen == dlqMaxlen && this.maxRetries == maxRetries
      ensures queue == [] && dlq == []
    {
      this.maxlen, this.dlqMaxlen, this.maxRetries := maxlen, dlqMaxlen, maxRetries;
      queue, dlq := [], [];
    }

    method EnqueueTrace(item: Item)
      requires item.retries == 0
      modifies this`queue
      ensures queue == Trim(PushAll(old(queue), [Good(item)]), maxlen)
    {
      queue := [Good(item)] + queue;
      assert [Good(item)][..0] == [];
      if maxlen > 0 { queue := queue[..Min(|queue|, maxlen)]; }
    }

    /** At most `limit` entries leave the list, the oldest ones, and the items among them are returned
        oldest first. */
    method PopBatch(limit: int) returns (items: seq<Item>)
      modifies this`queue
      ensures var n := Min(|old(queue)|, if limit > 0 then limit else 0);
              queue == old(queue)[..|old(queue)| - n] && items == PopItems(old(queue), n)
    {
      items := [];
      var n := 0;
      while n < limit && queue != []
        invariant 0 <= n <= |old(queue)| && (limit > 0 ==> n <= limit) && (limit <= 0 ==> n == 0)
        invariant queue == old(queue)[..|old(queue)| - n]
        invariant items == PopItems(old(queue), n)
      {
        var raw := queue[|queue| - 1];
        queue := queue[..|queue| - 1];
        n := n + 1;
        if raw.Malformed? { continue; }
        items := items + [raw.item];
      }
    }

    /** Each failed item is pushed once, to the queue while it has retries left, else to the dead-letter
        list; then both lists are trimmed. */
    method RequeueOrDeadLetterBatch(items: seq<Item>) returns (requeued: nat, deadLettered: nat)
      modifies this`queue, this`dlq
      ensures requeued == |Retried(items, maxRetries)| && deadLettered == |GivenUp(items, maxRetries)|
      ensures requeued + deadLettered == |items|
      ensures items == [] ==> queue == old(queue) && dlq == old(dlq)
      ensures items != [] ==>
                && queue == Trim(PushAll(old(queue), Retried(items, maxRetries)), maxlen)
                && dlq == Trim(PushAll(old(dlq), GivenUp(items, maxRetries)), dlqMaxlen)
    {
      requeued, deadLettered := 0, 0;
      if items == [] { return; }
      ghost var back, gone := [], [];
      var n := 0;
      while n < |items|
        invariant 0 <= n <= |items|
        invariant back == Retried(items[..n], maxRetries) && gone == GivenUp(items[..n], maxRetries)
        invariant requeued == |back| && deadLettered == |gone| && requeued + deadLettered == n
        invariant queue == PushAll(old(queue), back)
        invariant dlq == PushAll(old(dlq), gone)
      {
        var failed := Failed(items[n]);
        NextFailed(items, maxRetries, n);
        if failed.retries > maxRetries {
          PushLast(old(dlq), gone, failed);
          dlq := [failed] + dlq;
          deadLettered := deadLettered + 1;
          gone := gone + [failed];
        } else {
          PushLast(old(queue), back, Good(failed));
          queue := [Good(failed)] + queue;
          requeued := requeued + 1;
          back := back + [Good(failed)];
        }
        n := n + 1;
      }
      assert items[..n] == items;
      if maxlen > 0 { queue := queue[..Min(|queue|, maxlen)]; }
      if dlqMaxlen > 0 { dlq := dlq[..Min(|dlq|, dlqMaxlen)]; }
    }
  }

  lemma NextFailed(items: seq<Item>, maxRetries: int, n: nat)
    requires n < |items|
    ensures Retried(items[..n + 1], maxRetries)
            == Retried(items[..n], maxRetries) + (if items[n].retries + 1 > maxRetries then [] else [Good(Failed(items[n]))])
    ensures GivenUp(items[..n + 1], maxRetries)
            == GivenUp(items[..n], maxRetries) + (if items[n].retries + 1 > maxRetries then [Failed(items[n])] else [])
  {
    assert items[..n + 1][..n] == items[..n];
  }

  lemma PushLast<T>(list: seq<T>, xs: seq<T>, x: T)
    ensures PushAll(list, xs + [x]) == [x] + PushAll(list, xs)
  {
    assert (xs + [x])[..|xs|] == xs;
  }

  // ---- A failed batch ----

  function Back(item: Item, maxRetries: int): seq<Payload> {
    if item.retries + 1 <= maxRetries then [Good(Failed(item))] else []
  }

  function Gone(item: Item, maxRetries: int): seq<Item> {
    if item.retries + 1 <= maxRetries then [] else [Failed(item)]
  }

  lemma OneMoreFailed(items: seq<Item>, item: Item, maxRetries: int)
    ensures Retried(items + [item], maxRetries) == Retried(items, maxRetries) + Back(item, maxRetries)
    ensures GivenUp(items + [item], maxRetries) == GivenUp(items, maxRetries) + Gone(item, maxRetries)
  {
    assert (items + [item])[..|items|] == items;
  }

  lemma Regroup<T>(a: seq<T>, b: seq<T>, c: seq<T>)
    ensures a + (b + c) == a + b + c
  {
  }

  lemma {:induction false} FailedBatchSplits(a: seq<Item>, b: seq<Item>, maxRetries: int)
    ensures Retried(a + b, maxRetries) == Retried(a, maxRetries) + Retried(b, maxRetries)
    ensures GivenUp(a + b, maxRetries) == GivenUp(a, maxRetries) + GivenUp(b, maxRetries)
    decreases |b|
  {
    if b == [] {
      assert a + b == a;
    } else {
      var rest, last := b[..|b| - 1], b[|b| - 1];
      FailedBatchSplits(a, rest, maxRetries);
      assert rest + [last] == b;
      Regroup(a, rest, [last]);
      OneMoreFailed(a + rest, last, maxRetries);
      OneMoreFailed(rest, last, maxRetries);
      Regroup(Retried(a, maxRetries), Retried(rest, maxRetries), Back(last, maxRetries));
      Regroup(GivenUp(a, maxRetries), GivenUp(rest, maxRetries), Gone(last, maxRetries));
    }
  }

  /** One item of a failed batch, whatever the others: it goes back, behind those before it and in front of
      those after it, while it has retries left, and is given up otherwise. */
  lemma EachFailedItemGoesItsWay(before: seq<Item>, item: Item, after: seq<Item>, maxRetries: int)
    ensures var batch := before + [item] + after;
            && Retried(batch, maxRetries) == Retried(before, maxRetries) + Back(item, maxRetries) + Retried(after, maxRetries)
            && GivenUp(batch, maxRetries) == GivenUp(before, maxRetries) + Gone(item, maxRetries) + GivenUp(after, maxRetries)
  {
    FailedBatchSplits(before + [item], after, maxRetries);
    OneMoreFailed(before, item, maxRetries);
  }

  // ---- First in, first out ----

  lemma {:induction false} PopBeyondPush(list: seq<Payload>, p: Payload, n: nat)
    requires n <= |list|
    ensures PopItems([p] + list, n) == PopItems(list, n)
  {
    if n > 0 {
      PopBeyondPush(list, p, n - 1);
      assert ([p] + list)[|list| + 1 - n] == list[|list| - n];
    }
  }

  lemma PopAllAfterPush(list: seq<Payload>, p: Payload)
    ensures PopItems([p] + list, |list| + 1) == PopItems(list, |list|) + ItemOf(p)
  {
    PopBeyondPush(list, p, |list|);
  }

  function Wrap(items: seq<Item>): (payloads: seq<Payload>)
    ensures |payloads| == |items|
    ensures forall i :: 0 <= i < |items| ==> payloads[i] == Good(items[i])
  {
    seq(|items|, i requires 0 <= i < |items| => Good(items[i]))
  }

  /** Items pushed one after the other, none trimmed, come back in the order of the pushes, after all
      that was waiting before them. */
  lemma {:induction false} PushesComeBackInOrder(waiting: seq<Payload>, pushed: seq<Item>)
    ensures PopItems(PushAll(waiting, Wrap(pushed)), |waiting| + |pushed|) == PopItems(waiting, |waiting|) + pushed
    decreases |pushed|
  {
    if pushed == [] {
      assert PopItems(waiting, |waiting|) + pushed == PopItems(waiting, |waiting|);
    } else {
      var n := |pushed| - 1;
      PushesComeBackInOrder(waiting, pushed[..n]);
      assert Wrap(pushed)[..n] == Wrap(pushed[..n]);
      PopAllAfterPush(PushAll(waiting, Wrap(pushed[..n])), Good(pushed[n]));
      assert pushed == pushed[..n] + [pushed[n]];
    }
  }

  /** Of a failed batch, queued items keep at most `maxRetries` retries and dead letters have exactly
      one more. */
  lemma {:induction false} RetriesAreBounded(items: seq<Item>, maxRetries: int)
    requires forall i :: 0 <= i < |items| ==> items[i].retries <= maxRetries
    ensures forall p :: p in Retried(items, maxRetries) ==> p.Good? && 1 <= p.item.retries <= maxRetries
    ensures forall item :: item in GivenUp(items, maxRetries) ==> item.retries == maxRetries + 1
    decreases |items|
  {
    if items != [] { RetriesAreBounded(items[..|items| - 1], maxRetries); }
  }
}
