/** Admission control in general: a step decides on a request and moves the stored state.

    Both limiter scripts write nothing when they deny, so what holds for every such step is stated
    here once. */
module Admission {
  /** The decisions on a sequence of requests, one after the other. */
  function Decisions<S, E>(step: (S, E) -> (bool, S), s: S, requests: seq<E>): (d: seq<bool>)
    ensures |d| == |requests|
  {
    if requests == [] then []
    else
      var (ok, s') := step(s, requests[0]);
      [ok] + Decisions(step, s', requests[1..])
  }

  function Final<S, E>(step: (S, E) -> (bool, S), s: S, requests: seq<E>): S {
    if requests == [] then s else Final(step, step(s, requests[0]).1, requests[1..])
  }

  /** The same request a number of times. */
  function Repeat<E>(n: nat, e: E): (requests: seq<E>)
    ensures |requests| == n && forall i :: 0 <= i < n ==> requests[i] == e
  {
    seq(n, _ => e)
  }

  function CountTrue(d: seq<bool>): nat {
    if d == [] then 0 else (if d[0] then 1 else 0) + CountTrue(d[1..])
  }

  lemma {:induction false} CountTrueBound(d: seq<bool>)
    ensures CountTrue(d) <= |d|
  {
    if d != [] { CountTrueBound(d[1..]); }
  }

  /** The elements marked to be kept. */
  function Keep<T>(xs: seq<T>, mark: seq<bool>): (kept: seq<T>)
    requires |xs| == |mark|
  {
    if xs == [] then [] else (if mark[0] then [xs[0]] else []) + Keep(xs[1..], mark[1..])
  }

  ghost predicate DenialsKeepState<S(!new), E(!new)>(step: (S, E) -> (bool, S)) {
    forall s, e :: !step(s, e).0 ==> step(s, e).1 == s
  }

  /** Denied requests are invisible: dropping any of them from a run leaves every other decision, and
      the final state, as they were. */
  lemma {:induction false} DeniedRequestsAreInvisible<S(!new), E(!new)>(
      step: (S, E) -> (bool, S), s: S, requests: seq<E>, mark: seq<bool>)
    requires DenialsKeepState(step) && |mark| == |requests|
    requires forall i :: 0 <= i < |requests| && !mark[i] ==> !Decisions(step, s, requests)[i]
    ensures Decisions(step, s, Keep(requests, mark)) == Keep(Decisions(step, s, requests), mark)
    ensures Final(step, s, Keep(requests, mark)) == Final(step, s, requests)
  {
    if requests != [] {
      var (ok, s') := step(s, requests[0]);
      var d := Decisions(step, s, requests);
      assert d[1..] == Decisions(step, s', requests[1..]);
      forall i | 0 <= i < |requests| - 1 && !mark[1..][i] ensures !d[1..][i] {
        assert !mark[i + 1];
      }
      DeniedRequestsAreInvisible(step, s', requests[1..], mark[1..]);
      if mark[0] {
        var kept := Keep(requests, mark);
        assert kept[1..] == Keep(requests[1..], mark[1..]);
      } else {
        assert !d[0] && s' == s;
        assert Keep(requests, mark) == Keep(requests[1..], mark[1..]);
        assert Keep(d, mark) == Keep(d[1..], mark[1..]);
      }
    }
  }

  lemma {:induction false} DecisionsSplit<S, E>(step: (S, E) -> (bool, S), s: S, xs: seq<E>, ys: seq<E>)
    ensures Decisions(step, s, xs + ys) == Decisions(step, s, xs) + Decisions(step, Final(step, s, xs), ys)
    ensures Final(step, s, xs + ys) == Final(step, Final(step, s, xs), ys)
  {
    if xs == [] {
      assert xs + ys == ys;
    } else {
      assert (xs + ys)[1..] == xs[1..] + ys;
      DecisionsSplit(step, step(s, xs[0]).1, xs[1..], ys);
    }
  }

  lemma {:induction false} CountTrueSplit(c: seq<bool>, d: seq<bool>)
    ensures CountTrue(c + d) == CountTrue(c) + CountTrue(d)
  {
    if c == [] {
      assert c + d == d;
    } else {
      assert (c + d)[1..] == c[1..] + d;
      CountTrueSplit(c[1..], d);
    }
  }
}
