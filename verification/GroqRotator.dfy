/** Round-robin selection of API keys over one shared Redis counter.

    INCR and INCRBY are atomic, so a run of concurrent callers is the sequence of their claims in the
    order in which Redis executes them; a claim of width 1 is `next_groq_key`, of width n
    `next_groq_keys(n)`. */
module GroqRotator {
  import opened Arithmetic
  import opened Options

  /** What a probe of the cooling marker answers: the number of the probe and the key it asks for.
      Markers come and go between probes. */
  type Probe = (nat, string) -> bool

  /** The position that probe `k` from position `start` on looks at. */
  function At(start: nat, k: nat, total: nat): (p: nat)
    requires total > 0
    ensures p < total
  {
    (start + k) % total
  }

  /** The probes go round the keys one by one, beginning at the start. */
  lemma ProbesGoRound(start: nat, k: nat, total: nat)
    requires start < total
    ensures At(start, 0, total) == start
    ensures At(start, k + 1, total) == if At(start, k, total) + 1 == total then 0 else At(start, k, total) + 1
  {
    ModUnique(start, total, 0, start);
    var q, p := (start + k) / total, (start + k) % total;
    Quotient(start + k, total, q);
    if p + 1 == total {
      assert (q + 1) * total == q * total + total;
      ModUnique(start + k + 1, total, q + 1, 0);
    } else {
      ModUnique(start + k + 1, total, q, p + 1);
    }
  }

  ghost predicate TestsCooling(keys: seq<string>, start: nat, cooling: Probe, k: nat)
    requires keys != []
  {
    cooling(k, keys[At(start, k, |keys|)])
  }

  /** The key that the loop picks from probe `k` on. */
  function FirstWarm(keys: seq<string>, start: nat, cooling: Probe, k: nat): string
    requires start < |keys| && k <= |keys|
    decreases |keys| - k
  {
    if k == |keys| then keys[start]
    else
      var candidate := keys[At(start, k, |keys|)];
      if !cooling(k, candidate) then candidate else FirstWarm(keys, start, cooling, k + 1)
  }

  /** The positions that a claim of width n gets. */
  function Positions(start: nat, n: nat, total: nat): (positions: seq<nat>)
    requires total > 0
    ensures |positions| == n
    ensures forall i :: 0 <= i < n ==> positions[i] == (start + i) % total
  {
    seq(n, i requires 0 <= i < n => (start + i) % total)
  }

  datatype KeyError = NoKeys

  datatype Result<T> = Ok(value: T) | Err(error: KeyError)

  class Rotator {
    /** `agent:groq_rr_counter` */
    var counter: nat

    constructor ()
      ensures counter == 0
    {
      counter := 0;
    }

    /** The first key from the claimed slot on that does not test as cooling; the key of the slot when
        all of them do. */
    method NextGroqKey(keys: seq<string>, cooling: Probe) returns (r: Result<string>)
      modifies this
      ensures counter == old(counter) + (if |keys| >= 2 then 1 else 0)
      ensures keys == [] <==> r == Err(NoKeys)
      ensures |keys| == 1 ==> r == Ok(keys[0])
      ensures |keys| >= 2 ==> r == Ok(FirstWarm(keys, old(counter) % |keys|, cooling, 0))
    {
      if keys == [] { return Err(NoKeys); }
      if |keys| == 1 { return Ok(keys[0]); }
      counter := counter + 1;
      var n := |keys|;
      var start := (counter - 1) % n;
      for offset := 0 to n
        invariant FirstWarm(keys, start, cooling, 0) == FirstWarm(keys, start, cooling, offset)
      {
        var candidate := keys[(start + offset) % n];
        if !cooling(offset, candidate) { return Ok(candidate); }
      }
      return Ok(keys[start]);
    }

    method NextGroqKeys(keys: seq<string>, n: int) returns (r: Result<seq<string>>)
      modifies this
      ensures counter == old(counter) + (if n > 0 && |keys| >= 2 then n else 0)
      ensures n <= 0 ==> r == Ok([])
      ensures n > 0 ==> (keys == [] <==> r == Err(NoKeys))
      ensures n > 0 && keys != [] ==> r.Ok? && |r.value| == n
      ensures n > 0 && |keys| == 1 ==> forall i :: 0 <= i < n ==> r.value[i] == keys[0]
      ensures n > 0 && |keys| >= 2 ==>
                forall i :: 0 <= i < n ==> r.value[i] == keys[Positions(old(counter), n, |keys|)[i]]
    {
      if n <= 0 { return Ok([]); }
      if keys == [] { return Err(NoKeys); }
      var total := |keys|;
      if total == 1 { return Ok(seq(n, _ => keys[0])); }
      counter := counter + n;
      var base := counter - n;
      return Ok(seq(n, i requires 0 <= i < n => keys[(base + i) % total]));
    }
  }

  // ---- Cooling ----

  /** A single claim returns a key that its probe found warm, after finding every key before it cooling;
      only when every probe says cooling does it return the key of its slot all the same. */
  lemma {:induction false} CoolingKeysAreSkipped(keys: seq<string>, start: nat, cooling: Probe, k: nat)
    returns (hit: Option<nat>)
    requires start < |keys| && k <= |keys|
    ensures hit.None? ==>
              && (forall i: nat :: k <= i < |keys| ==> TestsCooling(keys, start, cooling, i))
              && FirstWarm(keys, start, cooling, k) == keys[start]
    ensures hit.Some? ==>
              && k <= hit.value < |keys|
              && FirstWarm(keys, start, cooling, k) == keys[At(start, hit.value, |keys|)]
              && !TestsCooling(keys, start, cooling, hit.value)
              && (forall i: nat :: k <= i < hit.value ==> TestsCooling(keys, start, cooling, i))
    decreases |keys| - k
  {
    if k == |keys| {
      hit := None;
    } else if !TestsCooling(keys, start, cooling, k) {
      hit := Some(k);
    } else {
      hit := CoolingKeysAreSkipped(keys, start, cooling, k + 1);
    }
  }

  /** The probes of one claim reach every position, each exactly once. */
  lemma ProbesReachEveryKey(start: nat, total: nat, p: nat) returns (k: nat)
    requires start < total && p < total
    ensures k < total && At(start, k, total) == p
    ensures forall i: nat :: i < total && At(start, i, total) == p ==> i == k
  {
    if p >= start {
      k := p - start;
      ModUnique(start + k, total, 0, p);
    } else {
      k := p + total - start;
      ModUnique(start + k, total, 1, p);
    }
    forall i: nat | i < total && At(start, i, total) == p ensures i == k {
      if i < k { SameRemainder(start + i, start + k, total); }
      if k < i { SameRemainder(start + k, start + i, total); }
    }
  }

  lemma ModUnique(x: nat, total: nat, q: nat, r: nat)
    requires 0 < total && r < total && x == q * total + r
    ensures x % total == r && x / total == q
  {
    assert (q + 1) * total == q * total + total;
    Quotient(x, total, q);
  }

  lemma DivMono(x: nat, y: nat, total: nat)
    requires total > 0 && x <= y
    ensures x / total <= y / total
  {
    var q, q' := x / total, y / total;
    assert x == q * total + x % total && y == q' * total + y % total;
    if q' < q { MulMono(q' + 1, q, total); }
  }

  // ---- Slots are partitioned and positions are used evenly ----

  /** The counter after the claims. */
  function Counter(widths: seq<nat>): nat {
    if widths == [] then 0 else Counter(widths[..|widths| - 1]) + widths[|widths| - 1]
  }

  function Range(from: nat, n: nat): (slots: seq<nat>)
    ensures |slots| == n && forall i :: 0 <= i < n ==> slots[i] == from + i
  {
    seq(n, i requires 0 <= i < n => from + i)
  }

  /** The slots of all the claims, in the order of the claims. */
  function Slots(widths: seq<nat>): seq<nat> {
    if widths == [] then []
    else
      var n := |widths| - 1;
      Slots(widths[..n]) + Range(Counter(widths[..n]), widths[n])
  }

  /** The positions that all the claims get. */
  function Used(widths: seq<nat>, total: nat): seq<nat>
    requires total > 0
  {
    if widths == [] then []
    else
      var n := |widths| - 1;
      Used(widths[..n], total) + Positions(Counter(widths[..n]), widths[n], total)
  }

  /** However single and wide claims interleave, every slot below the counter is claimed, exactly once. */
  lemma {:induction false} SlotsArePartitioned(widths: seq<nat>)
    ensures Slots(widths) == Range(0, Counter(widths))
    decreases |widths|
  {
    if widths != [] { SlotsArePartitioned(widths[..|widths| - 1]); }
  }

  lemma {:induction false} UsedAreTheSlots(widths: seq<nat>, total: nat)
    requires total > 0
    ensures Used(widths, total) == Positions(0, Counter(widths), total)
    decreases |widths|
  {
    if widths != [] { UsedAreTheSlots(widths[..|widths| - 1], total); }
  }

  function Count(xs: seq<nat>, p: nat): nat {
    if xs == [] then 0 else Count(xs[..|xs| - 1], p) + (if xs[|xs| - 1] == p then 1 else 0)
  }

  /** Of the first `c` slots, position p gets one in every full round and one more when the current
      round has passed it. */
  lemma {:induction false} UsesOfPosition(c: nat, total: nat, p: nat)
    requires p < total
    ensures Count(Positions(0, c, total), p) == c / total + (if p < c % total then 1 else 0)
    decreases c
  {
    if c == 0 {
      ModUnique(0, total, 0, 0);
    } else {
      UsesOfPosition(c - 1, total, p);
      assert Positions(0, c, total)[..c - 1] == Positions(0, c - 1, total);
      NextRound(c - 1, total);
    }
  }

  lemma NextRound(c: nat, total: nat)
    requires total > 0
    ensures (c + 1) / total == (if c % total == total - 1 then c / total + 1 else c / total)
    ensures (c + 1) % total == (if c % total == total - 1 then 0 else c % total + 1)
  {
    var q, r := c / total, c % total;
    assert c == q * total + r;
    if r == total - 1 {
      assert (q + 1) * total == q * total + total;
      ModUnique(c + 1, total, q + 1, 0);
    } else {
      ModUnique(c + 1, total, q, r + 1);
    }
  }

  /** Cooling aside, after any interleaving of claims every key position has been used the floor or the
      ceiling of counter / N times; so two positions never differ by more than one. */
  lemma ClaimsAreFair(widths: seq<nat>, total: nat, p: nat, q: nat)
    requires p < total && q < total
    ensures var uses := Count(Used(widths, total), p);
            var c := Counter(widths);
            && c / total <= uses <= c / total + 1
            && (c % total == 0 ==> uses == c / total)
            && uses <= Count(Used(widths, total), q) + 1
  {
    UsedAreTheSlots(widths, total);
    UsesOfPosition(Counter(widths), total, p);
    UsesOfPosition(Counter(widths), total, q);
  }

  // ---- A wide claim ----

  ghost predicate Distinct<T>(xs: seq<T>) {
    forall i, j :: 0 <= i < j < |xs| ==> xs[i] != xs[j]
  }

  /** A claim of width n gets n different positions exactly when there are at least n keys. */
  lemma WideClaimIsDistinctExactly(start: nat, n: nat, total: nat)
    requires total > 0
    ensures Distinct(Positions(start, n, total)) <==> n <= total
  {
    var positions := Positions(start, n, total);
    if n <= total {
      forall i, j | 0 <= i < j < n ensures positions[i] != positions[j] {
        SameRemainder(start + i, start + j, total);
      }
    } else {
      var q, r := start / total, start % total;
      assert start + total == (q + 1) * total + r;
      ModUnique(start + total, total, q + 1, r);
      assert positions[0] == positions[total];
    }
  }

  lemma SameRemainder(x: nat, y: nat, total: nat)
    requires total > 0 && x < y < x + total
    ensures x % total != y % total
  {
    var q, q' := x / total, y / total;
    DivMono(x, y, total);
    if x % total == y % total {
      assert x == q * total + x % total && y == q' * total + x % total;
      if q < q' { MulMono(q + 1, q', total); }
    }
  }

  /** Distinct keys at distinct positions are distinct. */
  lemma WideClaimGetsDistinctKeys(keys: seq<string>, start: nat, n: nat)
    requires keys != [] && n <= |keys| && Distinct(keys)
    ensures Distinct(seq(n, i requires 0 <= i < n => keys[Positions(start, n, |keys|)[i]]))
  {
    WideClaimIsDistinctExactly(start, n, |keys|);
    var positions := Positions(start, n, |keys|);
    var picked := seq(n, i requires 0 <= i < n => keys[positions[i]]);
    forall i, j | 0 <= i < j < n ensures picked[i] != picked[j] {
      assert positions[i] != positions[j];
      assert 0 <= positions[i] < |keys| && 0 <= positions[j] < |keys|;
      if positions[i] < positions[j] {
        assert keys[positions[i]] != keys[positions[j]];
      } else {
        assert keys[positions[j]] != keys[positions[i]];
      }
    }
  }
}
