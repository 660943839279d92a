/** TOTP lockout: a failure counter and a lock marker in Redis, and concurrent verifiers.

    Every Redis command is one atomic step.  Time passes in whole seconds by `Tick`; a key whose time
    has come is gone.  Whether a code is right is an oracle bit.  WATCH covers the marker only: its
    version rises when it is set, deleted or expires.  At most `cap` calls are in flight at a time. */
module TotpLockout {
  import opened Options

  const MAX_FAILURES := 5
  const COUNTER_TTL := 300
  const LOCKOUT_TTL := 900

  type Pid = nat

  datatype Counter = Counter(failures: nat, expiresAt: int)

  /** Where a call in flight stands: what it is about to do. */
  datatype Pc =
    | CheckMarker(codeIsRight: bool)   // EXISTS, then the code check
    | ClearCounter                     // DEL counter
    | ClearMarker                      // DEL marker
    | Watch                            // WATCH marker
    | Recheck(ver: nat)                // EXISTS under WATCH
    | Count(ver: nat)                  // EXEC of HINCRBY and EXPIRE
    | Lock                             // SET marker

  /** How a call ends: it returns after both DELs, or raises TOTPLockedOut or TOTPInvalidCode. */
  datatype Answer = Cleared | LockedOut | InvalidCode

  /** Two history variables: `counted` is the number of failures counted since the beginning, `answers` how
      the last call of each process ended. */
  datatype State = State(
    now: int,
    counter: Option<Counter>,
    marker: Option<int>,
    version: nat,
    procs: map<Pid, Pc>,
    counted: nat,
    answers: map<Pid, Answer>)

  datatype Step =
    | Begin(pid: Pid, codeIsRight: bool)   // verify_totp_code
    | Reset(pid: Pid)                      // reset_lockout
    | Advance(pid: Pid)
    | Tick(seconds: nat)

  function Initial(now: int): State {
    State(now, None, None, 0, map[], 0, map[])
  }

  function Goto(s: State, pid: Pid, pc: Pc): State {
    s.(procs := s.procs[pid := pc])
  }

  /** The call returns or raises. */
  function Leave(s: State, pid: Pid, answer: Answer): State {
    s.(procs := s.procs - {pid}, answers := s.answers[pid := answer])
  }

  function Failures(s: State): nat {
    if s.counter.Some? then s.counter.value.failures else 0
  }

  function CountFailure(s: State): State {
    s.(counter := Some(Counter(Failures(s) + 1, s.now + COUNTER_TTL)), counted := s.counted + 1)
  }

  function SetMarker(s: State): State {
    s.(marker := Some(s.now + LOCKOUT_TTL), version := s.version + 1)
  }

  function DeleteMarker(s: State): State {
    if s.marker.Some? then s.(marker := None, version := s.version + 1) else s
  }

  function AdvanceAt(s: State, pid: Pid, pc: Pc): State {
    match pc
    case CheckMarker(codeIsRight) =>
      if s.marker.Some? then Leave(s, pid, LockedOut)
      else Goto(s, pid, if codeIsRight then ClearCounter else Watch)
    case ClearCounter => Goto(s.(counter := None), pid, ClearMarker)
    case ClearMarker => Leave(DeleteMarker(s), pid, Cleared)
    case Watch => Goto(s, pid, Recheck(s.version))
    case Recheck(ver) => if s.marker.Some? then Leave(s, pid, LockedOut) else Goto(s, pid, Count(ver))
    case Count(ver) =>
      if ver != s.version then Leave(s, pid, LockedOut)
      else if Failures(s) + 1 >= MAX_FAILURES then Goto(CountFailure(s), pid, Lock)
      else Leave(CountFailure(s), pid, InvalidCode)
    case Lock => Leave(SetMarker(s), pid, LockedOut)
  }

  function Elapse(s: State, seconds: nat): State {
    var now := s.now + seconds;
    var markerDue := s.marker.Some? && s.marker.value <= now;
    s.(now := now,
       counter := if s.counter.Some? && s.counter.value.expiresAt <= now then None else s.counter,
       marker := if markerDue then None else s.marker,
       version := if markerDue then s.version + 1 else s.version)
  }

  /** One step; a step that is not enabled leaves the state alone. */
  function Do(cap: nat, s: State, step: Step): State {
    match step
    case Begin(pid, codeIsRight) =>
      if pid in s.procs || |s.procs| >= cap then s else Goto(s, pid, CheckMarker(codeIsRight))
    case Reset(pid) =>
      if pid in s.procs || |s.procs| >= cap then s else Goto(s, pid, ClearCounter)
    case Advance(pid) => if pid in s.procs then AdvanceAt(s, pid, s.procs[pid]) else s
    case Tick(seconds) => Elapse(s, seconds)
  }

  function Exec(cap: nat, s: State, steps: seq<Step>): State
    decreases |steps|
  {
    if steps == [] then s else Exec(cap, Do(cap, s, steps[0]), steps[1..])
  }

  lemma {:induction false} ExecSplit(cap: nat, s: State, a: seq<Step>, b: seq<Step>)
    ensures Exec(cap, s, a + b) == Exec(cap, Exec(cap, s, a), b)
    decreases |a|
  {
    if a == [] {
      assert a + b == b;
    } else {
      assert (a + b)[1..] == a[1..] + b;
      ExecSplit(cap, Do(cap, s, a[0]), a[1..], b);
    }
  }

  // ---- The invariant of all runs ----

  /** A call that saw no marker under WATCH still sees none if the version is the one it watched. */
  ghost predicate SnapshotInv(s: State, pc: Pc) {
    && (pc.Recheck? ==> pc.ver <= s.version)
    && (pc.Count? ==> pc.ver <= s.version && (pc.ver == s.version ==> s.marker.None?))
  }

  /** The counter expires long before the marker that stands beside it. */
  ghost predicate TtlInv(s: State) {
    && (s.counter.Some? ==> s.now < s.counter.value.expiresAt <= s.now + COUNTER_TTL && s.counter.value.failures >= 1)
    && (s.marker.Some? ==> s.now < s.marker.value <= s.now + LOCKOUT_TTL)
    && (s.counter.Some? && s.marker.Some? ==>
          s.counter.value.expiresAt + (LOCKOUT_TTL - COUNTER_TTL) <= s.marker.value)
  }

  ghost predicate Inv(s: State) {
    TtlInv(s) && forall p :: p in s.procs ==> SnapshotInv(s, s.procs[p])
  }

  lemma AdvanceKeepsInv(cap: nat, s: State, pid: Pid)
    requires Inv(s) && pid in s.procs
    ensures Inv(Do(cap, s, Advance(pid)))
  {
    var s' := Do(cap, s, Advance(pid));
    assert SnapshotInv(s, s.procs[pid]);
    forall p | p in s'.procs ensures SnapshotInv(s', s'.procs[p]) {
      assert p in s.procs && SnapshotInv(s, s.procs[p]);
    }
  }

  lemma StepKeepsInv(cap: nat, s: State, step: Step)
    requires Inv(s)
    ensures Inv(Do(cap, s, step))
  {
    if step.Advance? && step.pid in s.procs {
      AdvanceKeepsInv(cap, s, step.pid);
    }
  }

  lemma {:induction false} RunsKeepInv(cap: nat, s: State, steps: seq<Step>)
    requires Inv(s)
    ensures Inv(Exec(cap, s, steps))
    decreases |steps|
  {
    if steps != [] {
      StepKeepsInv(cap, s, steps[0]);
      RunsKeepInv(cap, Do(cap, s, steps[0]), steps[1..]);
    }
  }

  /** In every run of verifications, resets and passing time, no failure is counted while the marker
      exists. */
  lemma NothingIsCountedUnderLock(cap: nat, now: int, steps: seq<Step>, step: Step)
    ensures var s := Exec(cap, Initial(now), steps);
            Do(cap, s, step).counted != s.counted ==> s.marker.None?
  {
    RunsKeepInv(cap, Initial(now), steps);
    var s := Exec(cap, Initial(now), steps);
    if step.Advance? && step.pid in s.procs {
      assert SnapshotInv(s, s.procs[step.pid]);
    }
  }

  /** When the marker expires the counter has expired before it, in every run. */
  lemma CounterIsGoneWhenTheMarkerExpires(cap: nat, now: int, steps: seq<Step>, seconds: nat)
    ensures var s := Exec(cap, Initial(now), steps);
            var after := Do(cap, s, Tick(seconds));
            s.marker.Some? && after.marker.None? ==> after.counter.None?
  {
    RunsKeepInv(cap, Initial(now), steps);
  }

  // ---- What each call does, run alone ----

  lemma OneStep(cap: nat, s: State, a: Step)
    ensures Exec(cap, s, [a]) == Do(cap, s, a)
  {
    assert [a][1..] == [];
  }

  lemma TwoSteps(cap: nat, s: State, a: Step, b: Step)
    ensures Exec(cap, s, [a, b]) == Do(cap, Do(cap, s, a), b)
  {
    assert [a, b][1..] == [b] && [b][1..] == [];
    assert Exec(cap, Do(cap, s, a), [b]) == Do(cap, Do(cap, s, a), b);
  }

  /** A call with a right code, run alone to its end. */
  function Success(pid: Pid): seq<Step> {
    [Begin(pid, true), Advance(pid)] + [Advance(pid), Advance(pid)]
  }

  /** Without a marker a right code clears the counter, whatever it stood at, and changes nothing else. */
  lemma RightCodeClears(cap: nat, s: State, pid: Pid)
    requires s.marker.None? && pid !in s.procs && |s.procs| < cap
    ensures Exec(cap, s, Success(pid)) == s.(counter := None, answers := s.answers[pid := Cleared])
  {
    ExecSplit(cap, s, [Begin(pid, true), Advance(pid)], [Advance(pid), Advance(pid)]);
    TwoSteps(cap, s, Begin(pid, true), Advance(pid));
    var s2 := Exec(cap, s, [Begin(pid, true), Advance(pid)]);
    TwoSteps(cap, s2, Advance(pid), Advance(pid));
    assert s.procs[pid := CheckMarker(true)][pid := ClearCounter][pid := ClearMarker] - {pid} == s.procs;
  }

  /** A reset, run alone to its end. */
  function LoneReset(pid: Pid): seq<Step> {
    [Reset(pid)] + [Advance(pid), Advance(pid)]
  }

  /** In every state a reset clears counter and marker.  Its only other effect is on WATCHes of the marker. */
  lemma ResetClears(cap: nat, s: State, pid: Pid)
    requires pid !in s.procs && |s.procs| < cap
    ensures Exec(cap, s, LoneReset(pid))
            == s.(counter := None, marker := None, answers := s.answers[pid := Cleared],
                  version := if s.marker.Some? then s.version + 1 else s.version)
  {
    ExecSplit(cap, s, [Reset(pid)], [Advance(pid), Advance(pid)]);
    var s1 := Do(cap, s, Reset(pid));
    assert [Reset(pid)][1..] == [] && Exec(cap, s, [Reset(pid)]) == s1;
    TwoSteps(cap, s1, Advance(pid), Advance(pid));
    assert s.procs[pid := ClearCounter][pid := ClearMarker] - {pid} == s.procs;
  }

  /** Under the marker a call is told so, right code or wrong, and changes nothing. */
  lemma LockedCallChangesNothing(cap: nat, s: State, pid: Pid, codeIsRight: bool)
    requires s.marker.Some? && pid !in s.procs && |s.procs| < cap
    ensures Exec(cap, s, [Begin(pid, codeIsRight), Advance(pid)]) == s.(answers := s.answers[pid := LockedOut])
  {
    TwoSteps(cap, s, Begin(pid, codeIsRight), Advance(pid));
    assert s.procs[pid := CheckMarker(codeIsRight)] - {pid} == s.procs;
  }

  /** Without a marker a wrong code counts one failure and starts the counter's 300 seconds anew; from the
      fifth on it also locks the account, for 900 seconds. */
  lemma WrongCodeCounts(cap: nat, s: State, pid: Pid, seconds: nat)
    requires s.marker.None? && pid !in s.procs && |s.procs| < cap
    ensures var e := Exec(cap, s, Attempt(pid));
            var later := Do(cap, e, Tick(seconds));
            var locks := Failures(s) + 1 >= 5;
            && Failures(e) == Failures(s) + 1 && e.counted == s.counted + 1 && e.procs == s.procs && e.now == s.now
            && e.answers == s.answers[pid := if locks then LockedOut else InvalidCode]
            && Failures(later) == (if seconds < 300 then Failures(s) + 1 else 0)
            && (later.marker.Some? <==> locks && seconds < 900)
  {
    AttemptRuns(cap, s, pid);
  }

  /** After a success or a reset, from any number of failures, it takes five wrong codes again. */
  lemma FiveMoreAfterClearing(cap: nat, s: State, pid: Pid, n: nat, reset: bool)
    requires (reset || s.marker.None?) && pid !in s.procs && 0 !in s.procs && |s.procs| < cap && n <= MAX_FAILURES
    ensures var e := Exec(cap, s, (if reset then LoneReset(pid) else Success(pid)) + Attempts(n));
            Failures(e) == n && e.counted == s.counted + n && (e.marker.Some? <==> n == MAX_FAILURES)
  {
    var clear := if reset then LoneReset(pid) else Success(pid);
    if reset { ResetClears(cap, s, pid); } else { RightCodeClears(cap, s, pid); }
    ExecSplit(cap, s, clear, Attempts(n));
    FiveFreshAttempts(cap, Exec(cap, s, clear), n);
  }

  // ---- What each call answers, whatever runs beside it ----

  /** `pid` begins no other call. */
  ghost predicate NoNewCall(step: Step, pid: Pid) {
    !(step.Begin? && step.pid == pid) && !(step.Reset? && step.pid == pid)
  }

  /** A call after its check of the marker. */
  ghost predicate AnswerDecided(s: State, pid: Pid, codeIsRight: bool, locked: bool) {
    if pid in s.procs then
      var pc := s.procs[pid];
      !locked && if codeIsRight then pc.ClearCounter? || pc.ClearMarker? else WrongPc(pc) && !pc.CheckMarker?
    else
      pid in s.answers
      && if locked then s.answers[pid] == LockedOut
         else if codeIsRight then s.answers[pid] == Cleared else s.answers[pid] != Cleared
  }

  /** An upper bound on the steps that a call still takes. */
  function StepsLeft(pc: Pc): nat {
    match pc
    case CheckMarker(_) => 5
    case Watch => 4
    case Recheck(_) => 3
    case Count(_) => 2
    case ClearCounter => 2
    case Lock => 1
    case ClearMarker => 1
  }

  function CallStepsLeft(s: State, pid: Pid): nat {
    if pid in s.procs then StepsLeft(s.procs[pid]) else 0
  }

  function OwnSteps(steps: seq<Step>, pid: Pid): nat
    decreases |steps|
  {
    if steps == [] then 0 else One(steps[0] == Advance(pid)) + OwnSteps(steps[1..], pid)
  }

  lemma AnswerDecidedStep(cap: nat, s: State, step: Step, pid: Pid, codeIsRight: bool, locked: bool)
    requires AnswerDecided(s, pid, codeIsRight, locked) && NoNewCall(step, pid)
    ensures AnswerDecided(Do(cap, s, step), pid, codeIsRight, locked)
    ensures pid !in s.procs ==> pid !in Do(cap, s, step).procs
    ensures pid in Do(cap, s, step).procs ==>
              CallStepsLeft(Do(cap, s, step), pid) + One(step == Advance(pid)) <= CallStepsLeft(s, pid)
  {
  }

  lemma {:induction false} AnswerDecidedRun(
    cap: nat, s: State, more: seq<Step>, pid: Pid, codeIsRight: bool, locked: bool)
    requires AnswerDecided(s, pid, codeIsRight, locked) && forall i :: 0 <= i < |more| ==> NoNewCall(more[i], pid)
    ensures AnswerDecided(Exec(cap, s, more), pid, codeIsRight, locked)
    ensures pid !in s.procs ==> pid !in Exec(cap, s, more).procs
    ensures pid in Exec(cap, s, more).procs ==>
              CallStepsLeft(Exec(cap, s, more), pid) + OwnSteps(more, pid) <= CallStepsLeft(s, pid)
    decreases |more|
  {
    if more != [] {
      AnswerDecidedStep(cap, s, more[0], pid, codeIsRight, locked);
      AnswerDecidedRun(cap, Do(cap, s, more[0]), more[1..], pid, codeIsRight, locked);
    }
  }

  /** In every interleaving a call ends within four more steps of its own after its check of the marker.  It
      succeeds exactly with a right code and no marker at that check; under the marker it is told so; a wrong
      code never succeeds. */
  lemma AnswersMean(cap: nat, s: State, pid: Pid, more: seq<Step>)
    requires pid in s.procs && s.procs[pid].CheckMarker?
    requires forall i :: 0 <= i < |more| ==> NoNewCall(more[i], pid)
    ensures var e := Exec(cap, Do(cap, s, Advance(pid)), more);
            && (OwnSteps(more, pid) >= 4 ==> pid !in e.procs)
            && (s.marker.Some? ==> pid !in e.procs)
            && (pid !in e.procs ==>
                  && pid in e.answers
                  && (e.answers[pid] == Cleared <==> s.procs[pid].codeIsRight && s.marker.None?)
                  && (s.marker.Some? ==> e.answers[pid] == LockedOut))
  {
    AnswerDecidedRun(cap, Do(cap, s, Advance(pid)), more, pid, s.procs[pid].codeIsRight, s.marker.Some?);
  }

  // ---- What WATCH guards ----

  lemma {:induction false} OthersKeepThePlace(cap: nat, s: State, steps: seq<Step>, pid: Pid)
    requires pid in s.procs && Advance(pid) !in steps
    ensures pid in Exec(cap, s, steps).procs && Exec(cap, s, steps).procs[pid] == s.procs[pid]
    decreases |steps|
  {
    if steps != [] {
      OthersKeepThePlace(cap, Do(cap, s, steps[0]), steps[1..], pid);
    }
  }

  /** No marker at any moment of the run, its ends included. */
  ghost predicate NeverMarked(cap: nat, s: State, steps: seq<Step>)
    decreases |steps|
  {
    s.marker.None? && (steps != [] ==> NeverMarked(cap, Do(cap, s, steps[0]), steps[1..]))
  }

  lemma {:induction false} NeverMarkedSplit(cap: nat, s: State, a: seq<Step>, b: seq<Step>)
    ensures NeverMarked(cap, s, a + b) <==> NeverMarked(cap, s, a) && NeverMarked(cap, Exec(cap, s, a), b)
    decreases |a|
  {
    if a == [] {
      assert a + b == b;
    } else {
      assert (a + b)[1..] == a[1..] + b;
      NeverMarkedSplit(cap, Do(cap, s, a[0]), a[1..], b);
    }
  }

  lemma {:induction false} VersionsTell(cap: nat, s: State, steps: seq<Step>)
    ensures Exec(cap, s, steps).version >= s.version
    ensures Exec(cap, s, steps).version == s.version ==> Exec(cap, s, steps).marker == s.marker
    ensures s.marker.None? ==> (NeverMarked(cap, s, steps) <==> Exec(cap, s, steps).version == s.version)
    decreases |steps|
  {
    if steps != [] {
      VersionsTell(cap, Do(cap, s, steps[0]), steps[1..]);
    }
  }

  /** WATCH, what others do, the second check, what others do: the EXEC that follows counts the failure
      exactly when the marker did not exist at any moment of all that; otherwise the call is told that the
      account is locked. */
  lemma CountedExactlyWhenNeverMarked(cap: nat, s: State, pid: Pid, a: seq<Step>, b: seq<Step>)
    requires pid in s.procs && s.procs[pid].Watch? && Advance(pid) !in a && Advance(pid) !in b
    ensures var steps := [Advance(pid)] + a + ([Advance(pid)] + b);
            var e := Exec(cap, s, steps);
            Do(cap, e, Advance(pid)).counted == e.counted + One(NeverMarked(cap, s, steps))
    ensures var steps := [Advance(pid)] + a + ([Advance(pid)] + b);
            var end := Do(cap, Exec(cap, s, steps), Advance(pid));
            !NeverMarked(cap, s, steps) && (forall i :: 0 <= i < |b| ==> NoNewCall(b[i], pid)) ==>
              pid !in end.procs && pid in end.answers && end.answers[pid] == LockedOut
  {
    var me := [Advance(pid)];
    var s1 := Do(cap, s, Advance(pid));
    var s2 := Exec(cap, s1, a);
    var s3 := Do(cap, s2, Advance(pid));
    var e := Exec(cap, s3, b);
    OneStep(cap, s, Advance(pid));
    OneStep(cap, s2, Advance(pid));
    ExecSplit(cap, s, me + a, me + b);
    ExecSplit(cap, s, me, a);
    ExecSplit(cap, s2, me, b);
    OthersKeepThePlace(cap, s1, a, pid);
    NeverMarkedSplit(cap, s, me + a, me + b);
    NeverMarkedSplit(cap, s, me, a);
    NeverMarkedSplit(cap, s2, me, b);
    VersionsTell(cap, s1, a);
    VersionsTell(cap, s3, b);
    if s2.marker.None? {
      OthersKeepThePlace(cap, s3, b, pid);
    } else {
      StaysAway(cap, s3, b, pid);
      if forall i :: 0 <= i < |b| ==> NoNewCall(b[i], pid) {
        AnswerDecidedRun(cap, s3, b, pid, false, true);
      }
    }
  }

  /** A counted failure that is the fifth or a later one locks the account for 900 seconds from the call's
      next step on, whatever others do before it; an earlier one ends the call. */
  lemma TheFifthLocks(cap: nat, s: State, pid: Pid, more: seq<Step>)
    requires pid in s.procs && s.procs[pid] == Count(s.version) && Advance(pid) !in more
    ensures var counted := Do(cap, s, Advance(pid));
            var before := Exec(cap, counted, more);
            var end := Do(cap, before, Advance(pid));
            if Failures(s) + 1 >= 5
            then end.marker == Some(before.now + 900) && pid !in end.procs && end.answers == before.answers[pid := LockedOut]
            else pid !in counted.procs && counted.answers == s.answers[pid := InvalidCode]
  {
    if Failures(s) + 1 >= 5 {
      OthersKeepThePlace(cap, Do(cap, s, Advance(pid)), more, pid);
    }
  }

  /** A call that is not there counts nothing, nor does one that has only begun. */
  lemma {:induction false} StaysAway(cap: nat, s: State, steps: seq<Step>, pid: Pid)
    requires (pid in s.procs ==> s.procs[pid].CheckMarker? || s.procs[pid].ClearCounter?) && Advance(pid) !in steps
    ensures var e := Exec(cap, s, steps); pid in e.procs ==> e.procs[pid].CheckMarker? || e.procs[pid].ClearCounter?
    decreases |steps|
  {
    if steps != [] {
      StaysAway(cap, Do(cap, s, steps[0]), steps[1..], pid);
    }
  }

  // ---- How many failures concurrent verifiers get counted ----

  /** A step of a call with a wrong code. */
  ghost predicate WrongCode(step: Step) {
    (step.Begin? && !step.codeIsRight) || step.Advance?
  }

  /** A step of such a call, or time that passes without a TTL firing. */
  ghost predicate QuietStep(s: State, step: Step) {
    || WrongCode(step)
    || (step.Tick? && Elapse(s, step.seconds).counter == s.counter && Elapse(s, step.seconds).marker == s.marker)
  }

  /** Only calls with wrong codes, and no TTL fires. */
  ghost predicate Quiet(cap: nat, s: State, steps: seq<Step>)
    decreases |steps|
  {
    steps != [] ==> QuietStep(s, steps[0]) && Quiet(cap, Do(cap, s, steps[0]), steps[1..])
  }

  function Locking(procs: map<Pid, Pc>): set<Pid> {
    set p | p in procs && procs[p].Lock?
  }

  ghost predicate WrongPc(pc: Pc) {
    pc == CheckMarker(false) || pc.Watch? || pc.Recheck? || pc.Count? || pc.Lock?
  }

  /** Before the marker is set, every failure from the fifth on has a call on its way to set it. */
  ghost predicate AttackInv(cap: nat, s: State) {
    && |s.procs| <= cap
    && (forall p :: p in s.procs ==> WrongPc(s.procs[p]))
    && Failures(s) == s.counted
    && (s.marker.None? ==> Lockers(s.procs) == if s.counted < MAX_FAILURES then 0 else s.counted - (MAX_FAILURES - 1))
    && s.counted <= MAX_FAILURES - 1 + cap
  }

  function Lockers(procs: map<Pid, Pc>): nat {
    |Locking(procs)|
  }

  function One(b: bool): nat { if b then 1 else 0 }

  lemma DropCounts(procs: map<Pid, Pc>, pid: Pid)
    requires pid in procs
    ensures Lockers(procs - {pid}) == Lockers(procs) - One(procs[pid].Lock?)
    ensures |procs - {pid}| == |procs| - 1
  {
    assert (procs - {pid}).Keys == procs.Keys - {pid};
    assert Locking(procs - {pid}) == Locking(procs) - {pid};
  }

  lemma PutCounts(procs: map<Pid, Pc>, pid: Pid, pc: Pc)
    ensures Lockers(procs[pid := pc]) == Lockers(procs) - One(pid in procs && procs[pid].Lock?) + One(pc.Lock?)
    ensures |procs[pid := pc]| == |procs| + One(pid !in procs)
  {
    var more := procs[pid := pc];
    assert more - {pid} == procs - {pid};
    DropCounts(more, pid);
    if pid in procs { DropCounts(procs, pid); } else { assert procs - {pid} == procs; }
  }

  lemma LockersAreCalls(procs: map<Pid, Pc>)
    ensures Lockers(procs) <= |procs|
  {
    assert procs.Keys == Locking(procs) + (procs.Keys - Locking(procs));
  }

  lemma AttackAdvance(cap: nat, s: State, pid: Pid)
    requires AttackInv(cap, s) && pid in s.procs && SnapshotInv(s, s.procs[pid])
    ensures AttackInv(cap, Do(cap, s, Advance(pid)))
  {
    assert WrongPc(s.procs[pid]);
    DropCounts(s.procs, pid);
    match s.procs[pid]
    case CheckMarker(_) => PutCounts(s.procs, pid, Watch);
    case Watch => PutCounts(s.procs, pid, Recheck(s.version));
    case Recheck(ver) => PutCounts(s.procs, pid, Count(ver));
    case Count(ver) =>
      PutCounts(s.procs, pid, Lock);
      LockersAreCalls(s.procs[pid := Lock]);
    case Lock =>
  }

  lemma AttackStep(cap: nat, s: State, step: Step)
    requires Inv(s) && AttackInv(cap, s) && QuietStep(s, step)
    ensures AttackInv(cap, Do(cap, s, step))
  {
    if step.Begin? {
      PutCounts(s.procs, step.pid, CheckMarker(false));
    } else if step.Advance? && step.pid in s.procs {
      AttackAdvance(cap, s, step.pid);
    }
  }

  lemma {:induction false} AttackRun(cap: nat, s: State, steps: seq<Step>)
    requires Inv(s) && AttackInv(cap, s) && Quiet(cap, s, steps)
    ensures AttackInv(cap, Exec(cap, s, steps))
    decreases |steps|
  {
    if steps != [] {
      AttackStep(cap, s, steps[0]);
      StepKeepsInv(cap, s, steps[0]);
      AttackRun(cap, Do(cap, s, steps[0]), steps[1..]);
    }
  }

  /** With at most `cap` calls in flight, however many are made and however they interleave, wrong codes
      get at most `4 + cap` failures counted before any TTL fires, however much time passes. */
  lemma ConcurrentFailureBound(cap: nat, now: int, steps: seq<Step>)
    requires Quiet(cap, Initial(now), steps)
    ensures Exec(cap, Initial(now), steps).counted <= MAX_FAILURES - 1 + cap
  {
    assert Locking(map[]) == {};
    AttackRun(cap, Initial(now), steps);
  }

  // ---- The bound is attained ----

  /** One call with a wrong code, run alone to its end. */
  function Attempt(pid: Pid): seq<Step> {
    [Begin(pid, false), Advance(pid), Advance(pid), Advance(pid), Advance(pid), Advance(pid)]
  }

  function AfterAttempt(s: State, pid: Pid): State {
    var counted := CountFailure(s);
    if Failures(counted) >= MAX_FAILURES then SetMarker(counted).(answers := s.answers[pid := LockedOut])
    else counted.(answers := s.answers[pid := InvalidCode])
  }

  lemma AttemptRuns(cap: nat, s: State, pid: Pid)
    requires pid !in s.procs && |s.procs| < cap && s.marker.None?
    ensures Exec(cap, s, Attempt(pid)) == AfterAttempt(s, pid)
  {
    assert Attempt(pid) == Park(pid) + [Advance(pid), Advance(pid)];
    ExecSplit(cap, s, Park(pid), [Advance(pid), Advance(pid)]);
    ParkRuns(cap, s, pid);
    TwoSteps(cap, Goto(s, pid, Count(s.version)), Advance(pid), Advance(pid));
    CountRuns(cap, s, pid);
  }

  lemma CountRuns(cap: nat, s: State, pid: Pid)
    requires pid !in s.procs && s.marker.None?
    ensures Do(cap, Do(cap, Goto(s, pid, Count(s.version)), Advance(pid)), Advance(pid)) == AfterAttempt(s, pid)
  {
    var parked := Goto(s, pid, Count(s.version));
    assert parked.procs - {pid} == s.procs;
    if Failures(s) + 1 >= MAX_FAILURES {
      assert parked.procs[pid := Lock] - {pid} == s.procs;
      assert Do(cap, parked, Advance(pid)) == Goto(CountFailure(parked), pid, Lock);
    } else {
      assert Do(cap, parked, Advance(pid)) == Leave(CountFailure(parked), pid, InvalidCode);
    }
  }

  /** A call with a wrong code up to the point where it counts. */
  function Park(pid: Pid): seq<Step> {
    [Begin(pid, false), Advance(pid)] + [Advance(pid), Advance(pid)]
  }

  lemma ParkRuns(cap: nat, s: State, pid: Pid)
    requires pid !in s.procs && |s.procs| < cap && s.marker.None?
    ensures Exec(cap, s, Park(pid)) == Goto(s, pid, Count(s.version))
  {
    TwoSteps(cap, s, Begin(pid, false), Advance(pid));
    var s2 := Goto(Goto(s, pid, CheckMarker(false)), pid, Watch);
    TwoSteps(cap, s2, Advance(pid), Advance(pid));
    ExecSplit(cap, s, [Begin(pid, false), Advance(pid)], [Advance(pid), Advance(pid)]);
    assert Do(cap, Do(cap, s2, Advance(pid)), Advance(pid)).procs == s.procs[pid := Count(s.version)];
  }

  function ParkAll(n: nat): seq<Step> {
    if n == 0 then [] else ParkAll(n - 1) + Park(n - 1)
  }

  function CountAll(n: nat): (steps: seq<Step>) {
    if n == 0 then [] else CountAll(n - 1) + [Advance(n - 1)]
  }

  function Parked(n: nat, ver: nat): (procs: map<Pid, Pc>)
    ensures forall p: nat :: p in procs <==> p < n
    ensures forall p: nat :: p in procs ==> procs[p] == Count(ver)
    ensures |procs| == n
  {
    if n == 0 then map[] else Parked(n - 1, ver)[n - 1 := Count(ver)]
  }

  lemma {:induction false} ParkAllRuns(cap: nat, s: State, n: nat)
    requires s.procs == map[] && s.marker.None? && n <= cap
    ensures Exec(cap, s, ParkAll(n)) == s.(procs := Parked(n, s.version))
    decreases n
  {
    if n > 0 {
      ParkAllRuns(cap, s, n - 1);
      ParkNext(cap, s.(procs := Parked(n - 1, s.version)), n - 1);
      ExecSplit(cap, s, ParkAll(n - 1), Park(n - 1));
    }
  }

  lemma ParkNext(cap: nat, s: State, n: nat)
    requires s.procs == Parked(n, s.version) && s.marker.None? && n < cap
    ensures Exec(cap, s, Park(n)) == s.(procs := Parked(n + 1, s.version))
  {
    ParkRuns(cap, s, n);
  }

  /** Parked calls count one after the other, since none of them has set the marker yet. */
  lemma {:induction false} CountAllRuns(cap: nat, s: State, n: nat, k: nat)
    requires k <= n && s.procs == Parked(n, s.version) && s.marker.None? && Failures(s) >= MAX_FAILURES - 1
    ensures var s' := Exec(cap, s, CountAll(k));
            && s'.counted == s.counted + k && Failures(s') == Failures(s) + k
            && s'.version == s.version
            && (forall p :: k <= p < n ==> p in s'.procs && s'.procs[p] == Count(s.version))
    decreases k
  {
    if k > 0 {
      CountAllRuns(cap, s, n, k - 1);
      var before := Exec(cap, s, CountAll(k - 1));
      ExecSplit(cap, s, CountAll(k - 1), [Advance(k - 1)]);
      assert [Advance(k - 1)][1..] == [];
      assert Exec(cap, before, [Advance(k - 1)]) == Do(cap, before, Advance(k - 1));
    }
  }

  function Attempts(n: nat): seq<Step> {
    if n == 0 then [] else Attempts(n - 1) + Attempt(0)
  }

  function AfterAttempts(s: State, n: nat): State {
    if n == 0 then s else AfterAttempt(AfterAttempts(s, n - 1), 0)
  }

  lemma {:induction false} AfterAttemptsMeans(s: State, n: nat)
    requires s.counter.None? && s.marker.None? && n <= MAX_FAILURES
    ensures var s' := AfterAttempts(s, n);
            && Failures(s') == n && s'.counted == s.counted + n && s'.procs == s.procs
            && (s'.marker.Some? <==> n == MAX_FAILURES)
            && (n > 0 ==> 0 in s'.answers && s'.answers[0] == if n == MAX_FAILURES then LockedOut else InvalidCode)
    decreases n
  {
    if n > 0 { AfterAttemptsMeans(s, n - 1); }
  }

  /** Attempts one after the other from a state without counter and marker, whatever other calls are
      waiting meanwhile: the first four are told that the code is invalid and leave it unlocked, the fifth
      locks it and is told so. */
  lemma {:induction false} FiveFreshAttempts(cap: nat, s: State, n: nat)
    requires s.counter.None? && s.marker.None? && 0 !in s.procs && |s.procs| < cap && n <= MAX_FAILURES
    ensures Exec(cap, s, Attempts(n)) == AfterAttempts(s, n)
    ensures var s' := Exec(cap, s, Attempts(n));
            && Failures(s') == n && s'.counted == s.counted + n && s'.procs == s.procs
            && (s'.marker.Some? <==> n == MAX_FAILURES)
            && (n > 0 ==> 0 in s'.answers && s'.answers[0] == if n == MAX_FAILURES then LockedOut else InvalidCode)
    decreases n
  {
    AfterAttemptsMeans(s, n);
    if n > 0 {
      FiveFreshAttempts(cap, s, n - 1);
      NextAttempt(cap, s, n - 1);
    }
  }

  lemma NextAttempt(cap: nat, s: State, n: nat)
    requires var s' := Exec(cap, s, Attempts(n)); s'.marker.None? && 0 !in s'.procs && |s'.procs| < cap
    ensures Exec(cap, s, Attempts(n + 1)) == AfterAttempt(Exec(cap, s, Attempts(n)), 0)
  {
    ExecSplit(cap, s, Attempts(n), Attempt(0));
    AttemptRuns(cap, Exec(cap, s, Attempts(n)), 0);
  }

  /** Four attempts alone, then `cap` calls that all reach their EXEC before the first SET. */
  function WorstRun(cap: nat): seq<Step> {
    Attempts(MAX_FAILURES - 1) + ParkAll(cap) + CountAll(cap)
  }

  /** For every number of calls in flight some run gets `4 + cap` failures counted. */
  lemma BoundIsAttained(cap: nat, now: int)
    requires cap > 0
    ensures Quiet(cap, Initial(now), WorstRun(cap))
    ensures Exec(cap, Initial(now), WorstRun(cap)).counted == MAX_FAILURES - 1 + cap
  {
    var four, park, count := Attempts(MAX_FAILURES - 1), ParkAll(cap), CountAll(cap);
    FiveFreshAttempts(cap, Initial(now), MAX_FAILURES - 1);
    var s := Exec(cap, Initial(now), four);
    ParkAllRuns(cap, s, cap);
    CountAllRuns(cap, s.(procs := Parked(cap, s.version)), cap, cap);
    ExecSplit(cap, Initial(now), four + park, count);
    ExecSplit(cap, Initial(now), four, park);
    AttemptsAreWrong(MAX_FAILURES - 1);
    ParkAllIsWrong(cap);
    CountAllIsWrong(cap);
    WrongIsQuiet(cap, Initial(now), WorstRun(cap));
  }

  ghost predicate AllWrong(steps: seq<Step>) {
    forall i :: 0 <= i < |steps| ==> WrongCode(steps[i])
  }

  lemma {:induction false} WrongIsQuiet(cap: nat, s: State, steps: seq<Step>)
    requires AllWrong(steps)
    ensures Quiet(cap, s, steps)
    decreases |steps|
  {
    if steps != [] { WrongIsQuiet(cap, Do(cap, s, steps[0]), steps[1..]); }
  }

  lemma {:induction false} AttemptsAreWrong(n: nat)
    ensures AllWrong(Attempts(n))
  {
    if n > 0 { AttemptsAreWrong(n - 1); }
  }

  lemma {:induction false} ParkAllIsWrong(n: nat)
    ensures AllWrong(ParkAll(n))
  {
    if n > 0 { ParkAllIsWrong(n - 1); }
  }

  lemma {:induction false} CountAllIsWrong(n: nat)
    ensures AllWrong(CountAll(n))
  {
    if n > 0 { CountAllIsWrong(n - 1); }
  }

  /** The module's promise that no failure is counted past the fifth holds for all runs of wrong codes in
      which no TTL fires exactly when calls do not overlap. */
  lemma FiveStrikesExactly(cap: nat, now: int)
    ensures (forall steps :: Quiet(cap, Initial(now), steps) ==> Exec(cap, Initial(now), steps).counted <= MAX_FAILURES)
            <==> cap <= 1
  {
    forall steps | Quiet(cap, Initial(now), steps)
      ensures Exec(cap, Initial(now), steps).counted <= MAX_FAILURES - 1 + cap
    {
      ConcurrentFailureBound(cap, now, steps);
    }
    if cap > 1 {
      BoundIsAttained(cap, now);
      assert Quiet(cap, Initial(now), WorstRun(cap));
    }
  }

  // ---- Does the account end up locked? ----

  ghost predicate WrongCodeOrTime(step: Step) {
    WrongCode(step) || step.Tick?
  }

  /** Five counted failures without a marker have a call under way that will set it. */
  ghost predicate LockPending(s: State) {
    && (forall p :: p in s.procs ==> WrongPc(s.procs[p]))
    && (Failures(s) >= MAX_FAILURES && s.marker.None? ==> exists p :: p in s.procs && s.procs[p].Lock?)
  }

  lemma LockPendingStep(cap: nat, s: State, step: Step)
    requires Inv(s) && LockPending(s) && WrongCodeOrTime(step)
    ensures LockPending(Do(cap, s, step))
  {
    var s' := Do(cap, s, step);
    if Failures(s) >= MAX_FAILURES && s.marker.None? {
      var p :| p in s.procs && s.procs[p].Lock?;
      assert s'.marker.Some? || (p in s'.procs && s'.procs[p].Lock?);
    } else if step.Advance? && step.pid in s.procs && s.procs[step.pid].Count? && Failures(s') >= MAX_FAILURES {
      assert s' == s.(procs := s'.procs, answers := s'.answers) || s'.procs[step.pid].Lock?;
    }
  }

  lemma {:induction false} LockPendingRun(cap: nat, s: State, steps: seq<Step>)
    requires Inv(s) && LockPending(s) && forall i :: 0 <= i < |steps| ==> WrongCodeOrTime(steps[i])
    ensures LockPending(Exec(cap, s, steps))
    decreases |steps|
  {
    if steps != [] {
      LockPendingStep(cap, s, steps[0]);
      StepKeepsInv(cap, s, steps[0]);
      LockPendingRun(cap, Do(cap, s, steps[0]), steps[1..]);
    }
  }

  /** With wrong codes only, whatever time passes, an account at rest with five live failures is
      locked. */
  lemma LockedWhenAtRest(cap: nat, now: int, steps: seq<Step>)
    requires forall i :: 0 <= i < |steps| ==> WrongCodeOrTime(steps[i])
    ensures var s := Exec(cap, Initial(now), steps);
            s.procs == map[] && Failures(s) >= MAX_FAILURES ==> s.marker.Some?
  {
    LockPendingRun(cap, Initial(now), steps);
  }

  /** A right code that was checked before the lock, and whose second DEL comes after it. */
  function SlowSuccess(pid: Pid): seq<Step> {
    [Begin(pid, true), Advance(pid)] + [Advance(pid)] + Attempts(MAX_FAILURES) + [Advance(pid)]
  }

  /** A right code in flight can leave five live failures unlocked. */
  lemma RightCodeCanUnlock(cap: nat, now: int)
    requires cap >= 2
    ensures var s := Exec(cap, Initial(now), SlowSuccess(1));
            s.procs == map[] && Failures(s) == MAX_FAILURES && s.marker.None?
  {
    var s0 := Initial(now);
    TwoSteps(cap, s0, Begin(1, true), Advance(1));
    var s2 := Goto(Goto(s0, 1, CheckMarker(true)), 1, ClearCounter);
    assert [Advance(1)][1..] == [];
    var s3 := Do(cap, s2, Advance(1));
    assert Exec(cap, s2, [Advance(1)]) == s3;
    assert s3.procs == map[1 := ClearMarker];
    FiveFreshAttempts(cap, s3, MAX_FAILURES);
    var s4 := Exec(cap, s3, Attempts(MAX_FAILURES));
    assert Exec(cap, s4, [Advance(1)]) == Do(cap, s4, Advance(1));
    assert map[1 := ClearMarker] - {1} == map[];
    ExecSplit(cap, s0, [Begin(1, true), Advance(1)] + [Advance(1)] + Attempts(MAX_FAILURES), [Advance(1)]);
    ExecSplit(cap, s0, [Begin(1, true), Advance(1)] + [Advance(1)], Attempts(MAX_FAILURES));
    ExecSplit(cap, s0, [Begin(1, true), Advance(1)], [Advance(1)]);
  }

  // ---- When is an account at rest with five live failures locked? ----

  /** What an account at rest with five live failures must be. */
  ghost predicate LockedAtRest(s: State) {
    s.procs == map[] && Failures(s) >= MAX_FAILURES ==> s.marker.Some?
  }

  /** At most one call is in flight; five live failures without a marker are about to be locked, and a
      success that still has to delete the marker has deleted the counter. */
  ghost predicate OneAtATime(s: State) {
    && (forall p, q :: p in s.procs && q in s.procs ==> p == q)
    && (Failures(s) >= MAX_FAILURES && s.marker.None? ==> exists p :: p in s.procs && s.procs[p].Lock?)
    && (forall p :: p in s.procs && s.procs[p].ClearMarker? ==> s.counter.None?)
  }

  lemma OneAtATimeAdvance(cap: nat, s: State, pid: Pid)
    requires Inv(s) && OneAtATime(s) && pid in s.procs
    ensures OneAtATime(Do(cap, s, Advance(pid)))
  {
    var s' := Do(cap, s, Advance(pid));
    assert s.procs.Keys == {pid};
    assert SnapshotInv(s, s.procs[pid]);
    if s.procs[pid].Count? && Failures(s') >= MAX_FAILURES && s'.marker.None? {
      assert s'.procs[pid].Lock?;
    }
  }

  lemma OneAtATimeStep(cap: nat, s: State, step: Step)
    requires cap <= 1 && Inv(s) && OneAtATime(s)
    ensures OneAtATime(Do(cap, s, step))
  {
    var s' := Do(cap, s, step);
    if step.Advance? && step.pid in s.procs {
      OneAtATimeAdvance(cap, s, step.pid);
    } else if (step.Begin? || step.Reset?) && s' != s {
      assert s.procs == map[];
    } else if step.Tick? && Failures(s') >= MAX_FAILURES && s'.marker.None? {
      var p :| p in s.procs && s.procs[p].Lock?;
      assert p in s'.procs && s'.procs[p].Lock?;
    }
  }

  lemma {:induction false} OneAtATimeRun(cap: nat, s: State, steps: seq<Step>)
    requires cap <= 1 && Inv(s) && OneAtATime(s)
    ensures OneAtATime(Exec(cap, s, steps))
    decreases |steps|
  {
    if steps != [] {
      OneAtATimeStep(cap, s, steps[0]);
      StepKeepsInv(cap, s, steps[0]);
      OneAtATimeRun(cap, Do(cap, s, steps[0]), steps[1..]);
    }
  }

  /** Over all runs, with right codes, resets and time, an account at rest with five live failures is
      locked in every one of them if and only if calls do not overlap. */
  lemma LockedAtRestExactly(cap: nat, now: int)
    ensures (forall steps :: LockedAtRest(Exec(cap, Initial(now), steps))) <==> cap <= 1
  {
    if cap <= 1 {
      forall steps ensures LockedAtRest(Exec(cap, Initial(now), steps)) {
        OneAtATimeRun(cap, Initial(now), steps);
      }
    } else {
      RightCodeCanUnlock(cap, now);
      assert !LockedAtRest(Exec(cap, Initial(now), SlowSuccess(1)));
    }
  }
}
