/** Refresh-token family rotation over one Redis hash, as a state machine.

    Every `await` on Redis is one atomic step, and any number of rotations, verifications and
    revocations interleave.  WATCH remembers the version of the key; EXEC commits exactly when the
    version is still the same.  Every HSET and the expiry of the key raise the version.
    The HMAC is checked before the first Redis command (module `RefreshToken`), so a process here
    presents a token id of this family. */
module RefreshFamily {
  import opened Options

  type TokenId = nat
  type Pid = nat

  /** The hash at `admin_auth:rt:<family_id>`.  `current` is missing, and the key has no TTL, when an
      HSET of `revoked` created the hash anew. */
  datatype Store =
    | Absent
    | Hash(current: Option<TokenId>, revoked: bool, hasTtl: bool)

  datatype Op =
    | Rotate(token: TokenId, minted: TokenId)
    | Verify(token: TokenId)
    | Revoke

  datatype Outcome = Rotated | Verified | Invalid | Replay | RevokeDone

  datatype Pc =
    | Start
    | Watched(ver: nat)   // WATCH done
    | Matched(ver: nat)   // HGETALL found the presented id
    | Ready(ver: nat)     // TTL read; EXEC of the swap is next
    | Stale(ver: nat)     // HGETALL found another id; EXEC of the revocation is next
    | Conflict            // EXEC raised WatchError; HSET revoked is next
    | Mismatch            // verify found another id; HSET revoked is next
    | Accepted            // verify found the presented id; TTL is next
    | Done(outcome: Outcome)

  datatype Proc = Proc(op: Op, pc: Pc)

  /** A committed swap of the current token id. */
  datatype Exchange = Exchange(spent: TokenId, next: TokenId)

  /** What Redis holds for the family, the next unused id, and the swaps committed so far. */
  datatype Shared = Shared(store: Store, version: nat, nextId: TokenId, exchanges: seq<Exchange>) {
    predicate Dead() {
      store.Absent? || store.revoked
    }

    /** HSET key revoked "1": creates the hash, without a TTL, when the key is gone. */
    function HSetRevoked(): Shared {
      var store' := if store.Absent? then Hash(None, true, false) else store.(revoked := true);
      this.(store := store', version := version + 1)
    }

    /** HSET key current_token_id, inside the transaction of a rotation. */
    function HSetCurrent(spent: TokenId, minted: TokenId): Shared {
      var store' := if store.Absent? then Hash(Some(minted), false, false) else store.(current := Some(minted));
      this.(store := store', version := version + 1, exchanges := exchanges + [Exchange(spent, minted)])
    }

    /** The TTL fires: a write like any other for WATCH. */
    function Expired(): Shared {
      if store.Hash? && store.hasTtl then this.(store := Absent, version := version + 1) else this
    }

    /** Reserve the id that `uuid4` yields. */
    function Minted(): Shared {
      this.(nextId := nextId + 1)
    }
  }

  datatype State = State(shared: Shared, procs: map<Pid, Proc>)

  datatype Step =
    | StartRotate(pid: Pid, token: TokenId)
    | StartVerify(pid: Pid, token: TokenId)
    | StartRevoke(pid: Pid)
    | Advance(pid: Pid)
    | Expire

  const FIRST: TokenId := 0

  /** The state right after `issue_refresh_token` created a fresh family. */
  const ISSUED: State := State(Shared(Hash(Some(FIRST), false, true), 0, FIRST + 1, []), map[])

  function AdvanceRotate(sh: Shared, token: TokenId, minted: TokenId, pc: Pc): (Shared, Pc) {
    match pc
    case Start => (sh, Watched(sh.version))
    case Watched(ver) =>
      if sh.Dead() then (sh, Done(Invalid))
      else if sh.store.current != Some(token) then (sh, Stale(ver))
      else (sh, Matched(ver))
    case Matched(ver) => (sh, Ready(ver))
    case Ready(ver) =>
      if ver == sh.version then (sh.HSetCurrent(token, minted), Done(Rotated)) else (sh, Conflict)
    case Stale(ver) =>
      if ver == sh.version then (sh.HSetRevoked(), Done(Replay)) else (sh, Conflict)
    case Conflict => (sh.HSetRevoked(), Done(Replay))
    case _ => (sh, pc)
  }

  function AdvanceVerify(sh: Shared, token: TokenId, pc: Pc): (Shared, Pc) {
    match pc
    case Start =>
      if sh.Dead() then (sh, Done(Invalid))
      else if sh.store.current != Some(token) then (sh, Mismatch)
      else (sh, Accepted)
    case Mismatch => (sh.HSetRevoked(), Done(Replay))
    case Accepted => (sh, Done(Verified))
    case _ => (sh, pc)
  }

  /** The next atomic step of one process. */
  function AdvanceProc(sh: Shared, p: Proc): (Shared, Pc) {
    match p.op
    case Rotate(token, minted) => AdvanceRotate(sh, token, minted, p.pc)
    case Verify(token) => AdvanceVerify(sh, token, p.pc)
    case Revoke => if p.pc == Start then (sh.HSetRevoked(), Done(RevokeDone)) else (sh, p.pc)
  }

  /** One atomic step; a step that is not enabled leaves the state alone. */
  function Do(s: State, step: Step): State {
    match step
    case StartRotate(pid, token) =>
      if pid in s.procs then s
      else State(s.shared.Minted(), s.procs[pid := Proc(Rotate(token, s.shared.nextId), Start)])
    case StartVerify(pid, token) =>
      if pid in s.procs then s else s.(procs := s.procs[pid := Proc(Verify(token), Start)])
    case StartRevoke(pid) =>
      if pid in s.procs then s else s.(procs := s.procs[pid := Proc(Revoke, Start)])
    case Advance(pid) =>
      if pid !in s.procs then s
      else
        var (sh, pc) := AdvanceProc(s.shared, s.procs[pid]);
        State(sh, s.procs[pid := s.procs[pid].(pc := pc)])
    case Expire => s.(shared := s.shared.Expired())
  }

  /** The state after a run of steps, in any interleaving. */
  function Exec(s: State, steps: seq<Step>): State
    decreases |steps|
  {
    if steps == [] then s else Exec(Do(s, steps[0]), steps[1..])
  }

  // ---- The chain of committed exchanges ----

  /** The `i`-th token id that was ever current. */
  function Id(exchanges: seq<Exchange>, i: nat): TokenId
    requires i <= |exchanges|
  {
    if i == 0 then FIRST else exchanges[i - 1].next
  }

  function Tip(sh: Shared): TokenId {
    Id(sh.exchanges, |sh.exchanges|)
  }

  /** The exchanges form one line without repetition: each spends what the one before minted. */
  ghost predicate Linear(exchanges: seq<Exchange>) {
    && (forall i :: 0 <= i < |exchanges| ==> exchanges[i].spent == Id(exchanges, i))
    && (forall i, j :: 0 <= i < j <= |exchanges| ==> Id(exchanges, i) != Id(exchanges, j))
  }

  ghost predicate Used(exchanges: seq<Exchange>, id: TokenId) {
    exists i :: 0 <= i <= |exchanges| && Id(exchanges, i) == id
  }

  lemma IdAfter(exchanges: seq<Exchange>, x: Exchange, i: nat)
    requires i <= |exchanges| + 1
    ensures Id(exchanges + [x], i) == if i <= |exchanges| then Id(exchanges, i) else x.next
  {
  }

  lemma LinearExtends(exchanges: seq<Exchange>, minted: TokenId)
    requires Linear(exchanges) && !Used(exchanges, minted)
    ensures Linear(exchanges + [Exchange(Id(exchanges, |exchanges|), minted)])
  {
    var x := Exchange(Id(exchanges, |exchanges|), minted);
    var more := exchanges + [x];
    forall i | 0 <= i < |more| ensures more[i].spent == Id(more, i) {
      IdAfter(exchanges, x, i);
    }
    forall i, j | 0 <= i < j <= |more| ensures Id(more, i) != Id(more, j) {
      IdAfter(exchanges, x, i);
      IdAfter(exchanges, x, j);
    }
  }

  /** Spent at most once, and never the newest. */
  lemma SpentOnce(exchanges: seq<Exchange>, x: Exchange, y: Exchange)
    requires Linear(exchanges) && x in exchanges && y in exchanges && x.spent == y.spent
    ensures x == y
    ensures x.spent != Id(exchanges, |exchanges|)
  {
    var i :| 0 <= i < |exchanges| && exchanges[i] == x;
    var j :| 0 <= j < |exchanges| && exchanges[j] == y;
    assert Id(exchanges, i) == Id(exchanges, j);
  }

  ghost predicate StoreInv(sh: Shared) {
    && Linear(sh.exchanges)
    && (forall id: TokenId :: Used(sh.exchanges, id) ==> id < sh.nextId)
    && (match sh.store
        case Absent => true
        case Hash(Some(current), _, hasTtl) => current == Tip(sh) && hasTtl
        case Hash(None, revoked, hasTtl) => revoked && !hasTtl)
  }

  /** A rotation past its HGETALL whose snapshot is still current sees the family it read. */
  ghost predicate SnapshotInv(sh: Shared, token: TokenId, ver: nat) {
    ver <= sh.version && (ver == sh.version ==> !sh.Dead() && sh.store.current == Some(token))
  }

  ghost predicate ProcInv(sh: Shared, p: Proc) {
    && (p.op.Rotate? ==>
          && p.op.minted < sh.nextId
          && (p.pc.Matched? || p.pc.Ready? ==> SnapshotInv(sh, p.op.token, p.pc.ver))
          && (p.pc.Watched? ==> p.pc.ver <= sh.version)
          && (p.pc == Done(Rotated) ==> Exchange(p.op.token, p.op.minted) in sh.exchanges)
          && (p.pc != Done(Rotated) ==> !Used(sh.exchanges, p.op.minted)))
    && (p.pc in {Done(Invalid), Done(Replay), Done(RevokeDone)} ==> sh.Dead())
    && (p.pc == Done(Rotated) ==> p.op.Rotate?)
  }

  ghost predicate DistinctMints(procs: map<Pid, Proc>) {
    forall p, q :: p in procs && q in procs && p != q && procs[p].op.Rotate? && procs[q].op.Rotate?
                   ==> procs[p].op.minted != procs[q].op.minted
  }

  ghost predicate Inv(s: State) {
    && StoreInv(s.shared)
    && DistinctMints(s.procs)
    && (forall p :: p in s.procs ==> ProcInv(s.shared, s.procs[p]))
  }

  // What each write to the shared state keeps.

  lemma RevokeKeeps(sh: Shared)
    requires StoreInv(sh)
    ensures StoreInv(sh.HSetRevoked())
    ensures forall p :: ProcInv(sh, p) ==> ProcInv(sh.HSetRevoked(), p)
  {
  }

  lemma ExpiryKeeps(sh: Shared)
    requires StoreInv(sh)
    ensures StoreInv(sh.Expired())
    ensures forall p :: ProcInv(sh, p) ==> ProcInv(sh.Expired(), p)
  {
  }

  lemma MintKeeps(sh: Shared)
    requires StoreInv(sh)
    ensures StoreInv(sh.Minted())
    ensures forall p :: ProcInv(sh, p) ==> ProcInv(sh.Minted(), p)
    ensures !Used(sh.exchanges, sh.nextId)
  {
  }

  lemma UsedAfter(exchanges: seq<Exchange>, x: Exchange, id: TokenId)
    ensures Used(exchanges + [x], id) <==> Used(exchanges, id) || id == x.next
  {
    var more := exchanges + [x];
    assert forall i :: 0 <= i <= |exchanges| ==> Id(more, i) == Id(exchanges, i);
    assert Id(more, |more|) == x.next;
  }

  lemma SwapKeeps(sh: Shared, minted: TokenId)
    requires StoreInv(sh) && !sh.Dead() && minted < sh.nextId && !Used(sh.exchanges, minted)
    ensures StoreInv(sh.HSetCurrent(Tip(sh), minted))
    ensures forall p :: ProcInv(sh, p) && !(p.op.Rotate? && p.op.minted == minted)
                        ==> ProcInv(sh.HSetCurrent(Tip(sh), minted), p)
  {
    LinearExtends(sh.exchanges, minted);
    forall id: TokenId ensures Used(sh.HSetCurrent(Tip(sh), minted).exchanges, id) <==> Used(sh.exchanges, id) || id == minted {
      UsedAfter(sh.exchanges, Exchange(Tip(sh), minted), id);
    }
  }

  lemma AdvanceKeepsInv(s: State, pid: Pid)
    requires Inv(s) && pid in s.procs
    ensures Inv(Do(s, Advance(pid)))
  {
    var p := s.procs[pid];
    var (sh, pc) := AdvanceProc(s.shared, p);
    assert ProcInv(s.shared, p);
    if sh == s.shared.HSetRevoked() {
      RevokeKeeps(s.shared);
    } else if sh != s.shared {
      SwapKeeps(s.shared, p.op.minted);
      UsedAfter(s.shared.exchanges, Exchange(Tip(s.shared), p.op.minted), p.op.minted);
    }
    assert ProcInv(sh, p.(pc := pc));
  }

  lemma StepKeepsInv(s: State, step: Step)
    requires Inv(s)
    ensures Inv(Do(s, step))
  {
    match step
    case StartRotate(pid, token) => MintKeeps(s.shared);
    case StartVerify(pid, token) =>
    case StartRevoke(pid) =>
    case Advance(pid) => if pid in s.procs { AdvanceKeepsInv(s, pid); }
    case Expire => ExpiryKeeps(s.shared);
  }

  /** Every interleaving of any number of processes keeps the invariant. */
  lemma {:induction false} RunsKeepInv(s: State, steps: seq<Step>)
    requires Inv(s)
    ensures Inv(Exec(s, steps))
    decreases |steps|
  {
    if steps != [] {
      StepKeepsInv(s, steps[0]);
      RunsKeepInv(Do(s, steps[0]), steps[1..]);
    }
  }

  lemma ReachableInv(steps: seq<Step>)
    ensures Inv(Exec(ISSUED, steps))
  {
    RunsKeepInv(ISSUED, steps);
  }

  /** A rotation ends as rotated, invalid or replay, a verification as verified, invalid or replay, a
      revocation as done; never otherwise. */
  ghost predicate FinishesProperly(p: Proc) {
    && (p.op.Rotate? && p.pc.Done? ==> p.pc.outcome in {Rotated, Invalid, Replay})
    && (p.op.Verify? && p.pc.Done? ==> p.pc.outcome in {Verified, Invalid, Replay})
    && (p.op.Revoke? ==> p.pc in {Start, Done(RevokeDone)})
    && (p.pc == Accepted || p.pc == Mismatch ==> p.op.Verify?)
  }

  lemma AdvanceFinishesProperly(sh: Shared, p: Proc)
    requires FinishesProperly(p)
    ensures FinishesProperly(p.(pc := AdvanceProc(sh, p).1))
  {
  }

  ghost predicate AllFinishProperly(s: State) {
    forall p :: p in s.procs ==> FinishesProperly(s.procs[p])
  }

  lemma {:induction false} RunsFinishProperly(s: State, steps: seq<Step>)
    requires AllFinishProperly(s)
    ensures AllFinishProperly(Exec(s, steps))
    decreases |steps|
  {
    if steps != [] {
      if steps[0].Advance? && steps[0].pid in s.procs {
        AdvanceFinishesProperly(s.shared, s.procs[steps[0].pid]);
      }
      RunsFinishProperly(Do(s, steps[0]), steps[1..]);
    }
  }

  lemma ReachableRotationsEndRotatedOrRefused(steps: seq<Step>, p: Pid)
    requires p in Exec(ISSUED, steps).procs
    ensures FinishesProperly(Exec(ISSUED, steps).procs[p])
  {
    RunsFinishProperly(ISSUED, steps);
  }

  // ---- Main results ----

  /** In every run the committed exchanges are one line, so each token id is exchanged at most once. */
  lemma EachTokenExchangedAtMostOnce(steps: seq<Step>)
    ensures var exchanges := Exec(ISSUED, steps).shared.exchanges;
            && Linear(exchanges)
            && forall i, j :: 0 <= i < j < |exchanges| ==> exchanges[i].spent != exchanges[j].spent
  {
    ReachableInv(steps);
  }

  lemma DeadStep(s: State, step: Step)
    requires Inv(s) && s.shared.Dead()
    ensures Do(s, step).shared.Dead() && Do(s, step).shared.exchanges == s.shared.exchanges
  {
    if step.Advance? && step.pid in s.procs {
      assert ProcInv(s.shared, s.procs[step.pid]);
    }
  }

  lemma {:induction false} DeadRun(s: State, steps: seq<Step>)
    requires Inv(s) && s.shared.Dead()
    ensures Exec(s, steps).shared.Dead() && Exec(s, steps).shared.exchanges == s.shared.exchanges
    decreases |steps|
  {
    if steps != [] {
      DeadStep(s, steps[0]);
      StepKeepsInv(s, steps[0]);
      DeadRun(Do(s, steps[0]), steps[1..]);
    }
  }

  /** Once a family is revoked or expired it stays so, and no rotation commits any more, in any
      continuation: the processes already past their checks included. */
  lemma DeadIsForever(steps: seq<Step>, more: seq<Step>)
    requires Exec(ISSUED, steps).shared.Dead()
    ensures var s := Exec(Exec(ISSUED, steps), more);
            s.shared.Dead() && s.shared.exchanges == Exec(ISSUED, steps).shared.exchanges
  {
    ReachableInv(steps);
    DeadRun(Exec(ISSUED, steps), more);
  }

  /** Run one verification of `token` alone: does it succeed? */
  ghost predicate WouldVerify(s: State, token: TokenId, pid: Pid) {
    var end := Do(Do(Do(s, StartVerify(pid, token)), Advance(pid)), Advance(pid));
    pid in end.procs && end.procs[pid].pc == Done(Verified)
  }

  /** In every reachable state a token is accepted exactly when the family is alive and the token is
      the newest one of the line: so never two, and never one that was already exchanged. */
  lemma OnlyTheNewestIsAccepted(steps: seq<Step>, token: TokenId, pid: Pid)
    requires pid !in Exec(ISSUED, steps).procs
    ensures var s := Exec(ISSUED, steps);
            && (WouldVerify(s, token, pid) <==> !s.shared.Dead() && token == Tip(s.shared))
            && (WouldVerify(s, token, pid) ==> forall x :: x in s.shared.exchanges ==> x.spent != token)
  {
    ReachableInv(steps);
    var s := Exec(ISSUED, steps);
    forall x | x in s.shared.exchanges ensures x.spent != Tip(s.shared) {
      SpentOnce(s.shared.exchanges, x, x);
    }
  }

  // ---- What each operation answers ----

  /** What a check of `token` in state `s` decides for good. */
  datatype Finding = FamilyDead | NotCurrent | Current

  function Find(s: State, token: TokenId): Finding {
    if s.shared.Dead() then FamilyDead else if token != Tip(s.shared) then NotCurrent else Current
  }

  /** A verification after its HGETALL. */
  ghost predicate VerifyDecided(e: State, pid: Pid, token: TokenId, found: Finding) {
    && pid in e.procs && e.procs[pid].op == Verify(token)
    && match found
       case FamilyDead => e.procs[pid].pc == Done(Invalid)
       case NotCurrent => e.procs[pid].pc == Mismatch || (e.procs[pid].pc == Done(Replay) && e.shared.Dead())
       case Current => e.procs[pid].pc == Accepted || e.procs[pid].pc == Done(Verified)
  }

  lemma VerifyDecidedStep(e: State, step: Step, pid: Pid, token: TokenId, found: Finding)
    requires Inv(e) && VerifyDecided(e, pid, token, found)
    ensures VerifyDecided(Do(e, step), pid, token, found)
  {
    if e.shared.Dead() { DeadStep(e, step); }
  }

  lemma {:induction false} VerifyDecidedRun(e: State, more: seq<Step>, pid: Pid, token: TokenId, found: Finding)
    requires Inv(e) && VerifyDecided(e, pid, token, found)
    ensures Inv(Exec(e, more)) && VerifyDecided(Exec(e, more), pid, token, found)
    decreases |more|
  {
    if more != [] {
      VerifyDecidedStep(e, more[0], pid, token, found);
      StepKeepsInv(e, more[0]);
      VerifyDecidedRun(Do(e, more[0]), more[1..], pid, token, found);
    }
  }

  /** A verification that has read the family in a reachable state answers what it found there, whatever
      goes on meanwhile: verified exactly for the newest token of a live family; a replay, with the family
      dead, for any other token of a live one; invalid for a dead one.  One more step of its own ends it. */
  lemma VerifyAnswersWhatItFound(steps: seq<Step>, pid: Pid, token: TokenId, more: seq<Step>)
    requires pid !in Exec(ISSUED, steps).procs
    ensures var s := Exec(ISSUED, steps);
            var e := Exec(Do(Do(s, StartVerify(pid, token)), Advance(pid)), more);
            && pid in e.procs && Do(e, Advance(pid)).procs[pid].pc.Done?
            && (e.procs[pid].pc.Done? ==>
                  && (e.procs[pid].pc == Done(Verified) <==> !s.shared.Dead() && token == Tip(s.shared))
                  && (!s.shared.Dead() && token != Tip(s.shared) ==> e.procs[pid].pc == Done(Replay) && e.shared.Dead())
                  && (s.shared.Dead() ==> e.procs[pid].pc == Done(Invalid)))
  {
    var s := Exec(ISSUED, steps);
    var s1 := Do(s, StartVerify(pid, token));
    ReachableInv(steps);
    StepKeepsInv(s, StartVerify(pid, token));
    StepKeepsInv(s1, Advance(pid));
    assert VerifyDecided(Do(s1, Advance(pid)), pid, token, Find(s, token));
    VerifyDecidedRun(Do(s1, Advance(pid)), more, pid, token, Find(s, token));
  }

  /** A rotation after its HGETALL. */
  ghost predicate RotateDecided(e: State, pid: Pid, token: TokenId, minted: TokenId, found: Finding) {
    && pid in e.procs && e.procs[pid].op == Rotate(token, minted)
    && var pc := e.procs[pid].pc;
       match found
       case FamilyDead => pc == Done(Invalid)
       case NotCurrent => pc.Stale? || pc == Conflict || (pc == Done(Replay) && e.shared.Dead())
       case Current => pc.Matched? || pc.Ready? || pc == Conflict || (pc == Done(Replay) && e.shared.Dead())
                       || (pc == Done(Rotated) && Exchange(token, minted) in e.shared.exchanges)
  }

  lemma RotateDecidedStep(e: State, step: Step, pid: Pid, token: TokenId, minted: TokenId, found: Finding)
    requires Inv(e) && RotateDecided(e, pid, token, minted, found)
    ensures RotateDecided(Do(e, step), pid, token, minted, found)
  {
    if e.shared.Dead() { DeadStep(e, step); }
  }

  lemma {:induction false} RotateDecidedRun(
    e: State, more: seq<Step>, pid: Pid, token: TokenId, minted: TokenId, found: Finding)
    requires Inv(e) && RotateDecided(e, pid, token, minted, found)
    ensures Inv(Exec(e, more)) && RotateDecided(Exec(e, more), pid, token, minted, found)
    decreases |more|
  {
    if more != [] {
      RotateDecidedStep(e, more[0], pid, token, minted, found);
      StepKeepsInv(e, more[0]);
      RotateDecidedRun(Do(e, more[0]), more[1..], pid, token, minted, found);
    }
  }

  /** The same for a rotation about to read the family: invalid for a dead family; a replay, with the family
      dead, for a token that is not the newest; for the newest one either its exchange is committed or a
      race was lost and the family is dead. */
  lemma RotateAnswersWhatItFound(steps: seq<Step>, pid: Pid, token: TokenId, minted: TokenId, ver: nat, more: seq<Step>)
    requires var s := Exec(ISSUED, steps); pid in s.procs && s.procs[pid] == Proc(Rotate(token, minted), Watched(ver))
    ensures var s := Exec(ISSUED, steps);
            var e := Exec(Do(s, Advance(pid)), more);
            && pid in e.procs
            && (e.procs[pid].pc.Done? ==>
                  && (s.shared.Dead() ==> e.procs[pid].pc == Done(Invalid))
                  && (!s.shared.Dead() && token != Tip(s.shared) ==> e.procs[pid].pc == Done(Replay) && e.shared.Dead())
                  && (!s.shared.Dead() && token == Tip(s.shared) ==>
                        || (e.procs[pid].pc == Done(Rotated) && Exchange(token, minted) in e.shared.exchanges)
                        || (e.procs[pid].pc == Done(Replay) && e.shared.Dead())))
  {
    var s := Exec(ISSUED, steps);
    ReachableInv(steps);
    StepKeepsInv(s, Advance(pid));
    assert RotateDecided(Do(s, Advance(pid)), pid, token, minted, Find(s, token));
    RotateDecidedRun(Do(s, Advance(pid)), more, pid, token, minted, Find(s, token));
  }

  /** A rotation alone, from start to end. */
  function LoneRotation(pid: Pid, token: TokenId): seq<Step> {
    [StartRotate(pid, token), Advance(pid), Advance(pid), Advance(pid), Advance(pid)]
  }

  lemma FiveSteps(s: State, a: Step, b: Step, c: Step, d: Step, e: Step)
    ensures Exec(s, [a, b, c, d, e]) == Do(Do(Do(Do(Do(s, a), b), c), d), e)
  {
    var all := [a, b, c, d, e];
    assert all[1..] == [b, c, d, e] && all[1..][1..] == [c, d, e];
    assert Exec(s, all) == Exec(Do(Do(s, a), b), [c, d, e]);
    ThreeSteps(Do(Do(s, a), b), c, d, e);
  }

  /** With nothing in between, the newest token of a live family is exchanged for a fresh one, which is the
      newest from then on, and the family stays alive with its TTL. */
  lemma LoneRotationSucceeds(steps: seq<Step>, pid: Pid)
    requires !Exec(ISSUED, steps).shared.Dead() && pid !in Exec(ISSUED, steps).procs
    ensures var s := Exec(ISSUED, steps);
            var e := Exec(s, LoneRotation(pid, Tip(s.shared)));
            && pid in e.procs && e.procs[pid].pc == Done(Rotated)
            && e.shared.exchanges == s.shared.exchanges + [Exchange(Tip(s.shared), s.shared.nextId)]
            && Tip(e.shared) == s.shared.nextId && !e.shared.Dead() && e.shared.store.hasTtl
            && e.procs - {pid} == s.procs
  {
    var s := Exec(ISSUED, steps);
    ReachableInv(steps);
    FiveSteps(s, StartRotate(pid, Tip(s.shared)), Advance(pid), Advance(pid), Advance(pid), Advance(pid));
  }

  // ---- Every operation ends ----

  /** The most steps that a process still takes. */
  function StepsLeft(p: Proc): nat {
    match p.pc
    case Done(_) => 0
    case Conflict => 1
    case Mismatch => 1
    case Accepted => 1
    case Ready(_) => 2
    case Stale(_) => 2
    case Matched(_) => 3
    case Watched(_) => 4
    case Start => match p.op case Rotate(_, _) => 5 case Verify(_) => 2 case Revoke => 1
  }

  /** The process stands at a point of its own operation. */
  ghost predicate OnCourse(p: Proc) {
    match p.op
    case Rotate(_, _) => !p.pc.Mismatch? && !p.pc.Accepted?
    case Verify(_) => p.pc.Start? || p.pc.Mismatch? || p.pc.Accepted? || p.pc.Done?
    case Revoke => p.pc.Start? || p.pc.Done?
  }

  function OwnSteps(steps: seq<Step>, pid: Pid): nat
    decreases |steps|
  {
    if steps == [] then 0 else (if steps[0] == Advance(pid) then 1 else 0) + OwnSteps(steps[1..], pid)
  }

  lemma StepsShrink(s: State, step: Step, pid: Pid)
    requires pid in s.procs && OnCourse(s.procs[pid])
    ensures pid in Do(s, step).procs && OnCourse(Do(s, step).procs[pid])
    ensures var (left, before) := (StepsLeft(Do(s, step).procs[pid]), StepsLeft(s.procs[pid]));
            left <= if step == Advance(pid) && before > 0 then before - 1 else before
  {
  }

  lemma {:induction false} RunShrinks(s: State, more: seq<Step>, pid: Pid)
    requires pid in s.procs && OnCourse(s.procs[pid])
    ensures var e := Exec(s, more);
            && pid in e.procs && OnCourse(e.procs[pid])
            && (StepsLeft(e.procs[pid]) + OwnSteps(more, pid) <= StepsLeft(s.procs[pid]) || e.procs[pid].pc.Done?)
    decreases |more|
  {
    if more != [] {
      StepsShrink(s, more[0], pid);
      RunShrinks(Do(s, more[0]), more[1..], pid);
      DoneStays(Do(s, more[0]), more[1..], pid);
    }
  }

  lemma {:induction false} DoneStays(s: State, more: seq<Step>, pid: Pid)
    requires pid in s.procs
    ensures pid in Exec(s, more).procs && (s.procs[pid].pc.Done? ==> Exec(s, more).procs[pid] == s.procs[pid])
    decreases |more|
  {
    if more != [] { DoneStays(Do(s, more[0]), more[1..], pid); }
  }

  /** Whatever else runs, a rotation ends within five steps of its own, a verification within two, a
      revocation within one; and an answer once given stays. */
  lemma OperationsEnd(s: State, op: Op, pid: Pid, more: seq<Step>)
    requires pid in s.procs && s.procs[pid] == Proc(op, Start)
    requires OwnSteps(more, pid) >= if op.Rotate? then 5 else if op.Verify? then 2 else 1
    ensures pid in Exec(s, more).procs && Exec(s, more).procs[pid].pc.Done?
    ensures forall later :: pid in Exec(Exec(s, more), later).procs
                            && Exec(Exec(s, more), later).procs[pid] == Exec(s, more).procs[pid]
  {
    RunShrinks(s, more, pid);
    forall later ensures pid in Exec(Exec(s, more), later).procs
                         && Exec(Exec(s, more), later).procs[pid] == Exec(s, more).procs[pid]
    {
      DoneStays(Exec(s, more), later, pid);
    }
  }

  /** Replay detection: once two rotations presenting the same token have both finished, whatever
      else happened, the family is revoked or expired. */
  lemma SecondRotationKillsTheFamily(steps: seq<Step>, p: Pid, q: Pid)
    requires var s := Exec(ISSUED, steps);
             && p in s.procs && q in s.procs && p != q
             && s.procs[p].op.Rotate? && s.procs[q].op.Rotate?
             && s.procs[p].op.token == s.procs[q].op.token
             && s.procs[p].pc.Done? && s.procs[q].pc.Done?
    ensures Exec(ISSUED, steps).shared.Dead()
  {
    ReachableInv(steps);
    ReachableRotationsEndRotatedOrRefused(steps, p);
    ReachableRotationsEndRotatedOrRefused(steps, q);
    var s := Exec(ISSUED, steps);
    assert ProcInv(s.shared, s.procs[p]) && ProcInv(s.shared, s.procs[q]);
    if s.procs[p].pc == Done(Rotated) && s.procs[q].pc == Done(Rotated) {
      SpentOnce(s.shared.exchanges, Exchange(s.procs[p].op.token, s.procs[p].op.minted),
                Exchange(s.procs[q].op.token, s.procs[q].op.minted));
    }
  }

  // ---- The race that the comment on `rotate_refresh_token` describes ----

  /** Only rotations presenting the current token of a live family, none of them begun. */
  ghost predicate RaceStart(s: State) {
    && Inv(s) && !s.shared.Dead()
    && forall p :: p in s.procs ==> s.procs[p].op.Rotate? && s.procs[p].op.token == Tip(s.shared) && s.procs[p].pc == Start
  }

  ghost predicate BeforeFirstWrite(s0: State, s: State) {
    && s.shared == s0.shared
    && forall p :: p in s.procs ==>
         s.procs[p].pc in {Start, Watched(s0.shared.version), Matched(s0.shared.version), Ready(s0.shared.version)}
  }

  ghost predicate Won(s: State, pid: Pid) {
    pid in s.procs && s.procs[pid].pc == Done(Rotated)
  }

  ghost predicate RaceInv(s0: State, s: State) {
    && Inv(s)
    && s.procs.Keys == s0.procs.Keys
    && (forall p :: p in s.procs ==> s.procs[p].op == s0.procs[p].op)
    && AllFinishProperly(s)
    && (BeforeFirstWrite(s0, s) || exists w :: Won(s, w))
  }

  /** Two rotations that both spent the same token are one. */
  lemma WinnerIsUnique(s: State, v: Pid, w: Pid)
    requires Inv(s) && Won(s, v) && Won(s, w) && s.procs[v].op.Rotate? && s.procs[w].op.Rotate?
    requires s.procs[v].op.token == s.procs[w].op.token
    ensures v == w
  {
    assert ProcInv(s.shared, s.procs[v]) && ProcInv(s.shared, s.procs[w]);
    SpentOnce(s.shared.exchanges, Exchange(s.procs[v].op.token, s.procs[v].op.minted),
              Exchange(s.procs[w].op.token, s.procs[w].op.minted));
  }

  lemma RaceStepBeforeFirstWrite(s0: State, s: State, pid: Pid)
    requires RaceStart(s0) && BeforeFirstWrite(s0, s) && pid in s.procs
    requires pid in s0.procs && s.procs[pid].op == s0.procs[pid].op
    ensures var s' := Do(s, Advance(pid)); BeforeFirstWrite(s0, s') || Won(s', pid)
  {
    assert s0.procs[pid].op.token == Tip(s0.shared);
  }

  lemma RaceStep(s0: State, s: State, pid: Pid)
    requires RaceStart(s0) && RaceInv(s0, s)
    ensures RaceInv(s0, Do(s, Advance(pid)))
  {
    if pid !in s.procs { return; }
    AdvanceKeepsInv(s, pid);
    AdvanceFinishesProperly(s.shared, s.procs[pid]);
    var s' := Do(s, Advance(pid));
    if BeforeFirstWrite(s0, s) {
      RaceStepBeforeFirstWrite(s0, s, pid);
    } else {
      WinnerStays(s, pid);
    }
  }

  lemma WinnerStays(s: State, pid: Pid)
    requires pid in s.procs && exists w :: Won(s, w)
    ensures exists w :: Won(Do(s, Advance(pid)), w)
  {
    var w :| Won(s, w);
    assert Won(Do(s, Advance(pid)), w);
  }

  lemma {:induction false} RaceRun(s0: State, s: State, schedule: seq<Pid>)
    requires RaceStart(s0) && RaceInv(s0, s)
    ensures RaceInv(s0, Scheduled(s, schedule))
    decreases |schedule|
  {
    if schedule != [] {
      RaceStep(s0, s, schedule[0]);
      RaceRun(s0, Do(s, Advance(schedule[0])), schedule[1..]);
    }
  }

  /** A run in which the given processes take one step each, in that order. */
  function Scheduled(s: State, schedule: seq<Pid>): State
    decreases |schedule|
  {
    if schedule == [] then s else Scheduled(Do(s, Advance(schedule[0])), schedule[1..])
  }

  ghost predicate AllDone(s: State) {
    forall p :: p in s.procs ==> s.procs[p].pc.Done?
  }

  lemma LoserMeansDead(s0: State, s: State, v: Pid, w: Pid)
    requires RaceStart(s0) && RaceInv(s0, s) && AllDone(s)
    requires v in s0.procs && w in s0.procs && v != w
    ensures s.shared.Dead()
  {
    assert s0.procs[v].op.Rotate? && s0.procs[w].op.Rotate?;
    if Won(s, v) && Won(s, w) { WinnerIsUnique(s, v, w); }
    assert ProcInv(s.shared, s.procs[v]) && ProcInv(s.shared, s.procs[w]);
    assert FinishesProperly(s.procs[v]) && FinishesProperly(s.procs[w]);
  }

  /** Any number of rotations race with the same valid token and nothing else touches the key:
      exactly one of them succeeds, in every schedule; with two or more the family is then dead, the
      winner's new token included. */
  lemma RaceHasExactlyOneWinner(s0: State, schedule: seq<Pid>)
    requires RaceStart(s0) && s0.procs != map[]
    requires AllDone(Scheduled(s0, schedule))
    ensures exists w :: Won(Scheduled(s0, schedule), w)
    ensures forall v, w :: Won(Scheduled(s0, schedule), v) && Won(Scheduled(s0, schedule), w) ==> v == w
    ensures (exists v, w :: v in s0.procs && w in s0.procs && v != w) ==> Scheduled(s0, schedule).shared.Dead()
  {
    RaceRun(s0, s0, schedule);
    var s := Scheduled(s0, schedule);
    var someone :| someone in s0.procs;
    assert someone in s.procs && s.procs[someone].pc.Done?;
    forall v, w | Won(s, v) && Won(s, w) ensures v == w {
      assert s0.procs[v].op.token == s0.procs[w].op.token;
      WinnerIsUnique(s, v, w);
    }
    forall v, w | v in s0.procs && w in s0.procs && v != w ensures s.shared.Dead() {
      LoserMeansDead(s0, s, v, w);
    }
  }

  // ---- Two consequences that the documentation does not mention ----

  /** The hash is there and no TTL will ever remove it. */
  ghost predicate Immortal(s: State) {
    s.shared.store.Hash? && !s.shared.store.hasTtl
  }

  /** The step carries out an HSET of `revoked`. */
  ghost predicate WritesRevoked(s: State, step: Step) {
    && step.Advance? && step.pid in s.procs
    && var p := s.procs[step.pid];
       match p.op
       case Rotate(_, _) => p.pc == Conflict || (p.pc.Stale? && p.pc.ver == s.shared.version)
       case Verify(_) => p.pc == Mismatch
       case Revoke => p.pc == Start
  }

  /** A revocation that comes after the family has expired. */
  ghost predicate LateRevocation(s: State, step: Step) {
    s.shared.store.Absent? && WritesRevoked(s, step)
  }

  lemma TtlStep(s: State, step: Step)
    requires Inv(s)
    ensures Immortal(Do(s, step)) <==> Immortal(s) || LateRevocation(s, step)
  {
    if step.Advance? && step.pid in s.procs {
      assert ProcInv(s.shared, s.procs[step.pid]);
    }
  }

  ghost predicate LateRevocationAt(s: State, steps: seq<Step>, i: nat) {
    i < |steps| && LateRevocation(Exec(s, steps[..i]), steps[i])
  }

  lemma LaterAt(s: State, steps: seq<Step>, i: nat)
    requires steps != []
    ensures LateRevocationAt(s, steps, i + 1) <==> LateRevocationAt(Do(s, steps[0]), steps[1..], i)
  {
    if i + 1 < |steps| {
      assert steps[..i + 1][1..] == steps[1..][..i];
    }
  }

  lemma {:induction false} TtlRun(s: State, steps: seq<Step>)
    requires Inv(s)
    ensures Immortal(Exec(s, steps)) <==> Immortal(s) || exists i: nat :: LateRevocationAt(s, steps, i)
    decreases |steps|
  {
    if steps != [] {
      var s' := Do(s, steps[0]);
      TtlStep(s, steps[0]);
      StepKeepsInv(s, steps[0]);
      TtlRun(s', steps[1..]);
      assert Exec(s, steps[..0]) == s;
      assert LateRevocationAt(s, steps, 0) <==> LateRevocation(s, steps[0]);
      if i: nat :| LateRevocationAt(s', steps[1..], i) {
        LaterAt(s, steps, i);
        assert LateRevocationAt(s, steps, i + 1);
      }
      if i: nat :| LateRevocationAt(s, steps, i) && i > 0 {
        LaterAt(s, steps, i - 1);
        assert LateRevocationAt(s', steps[1..], i - 1);
      }
    }
  }

  /** A run leaves a hash that never expires if and only if some revocation in it, by `revoke`, by a replay
      found in `verify` or by a loser of a race, came after the family had expired. */
  lemma TtlIsLostExactlyByLateRevocation(steps: seq<Step>)
    ensures Immortal(Exec(ISSUED, steps)) <==> exists i: nat :: LateRevocationAt(ISSUED, steps, i)
  {
    TtlRun(ISSUED, steps);
  }

  lemma ThreeSteps(s: State, a: Step, b: Step, c: Step)
    ensures Exec(s, [a, b, c]) == Do(Do(Do(s, a), b), c)
  {
    assert [a, b, c][1..] == [b, c] && [b, c][1..] == [c] && [c][1..] == [];
    assert Exec(Do(s, a), [b, c]) == Exec(Do(Do(s, a), b), [c]);
    assert Exec(Do(Do(s, a), b), [c]) == Do(Do(Do(s, a), b), c);
  }

  /** It can happen at any time: from every reachable state the expiry and a revocation lead there, and
      nothing leads back. */
  lemma LateRevocationIsPossible(steps: seq<Step>, pid: Pid, more: seq<Step>)
    requires pid !in Exec(ISSUED, steps).procs
    ensures var s := Exec(Exec(ISSUED, steps), [Expire, StartRevoke(pid), Advance(pid)]);
            Immortal(s) && Immortal(Exec(s, more)) && s.shared.store.revoked
  {
    var s0 := Exec(ISSUED, steps);
    ReachableInv(steps);
    var late := [Expire, StartRevoke(pid), Advance(pid)];
    var s := Exec(s0, late);
    ThreeSteps(s0, Expire, StartRevoke(pid), Advance(pid));
    RunsKeepInv(s0, late);
    TtlRun(s, more);
  }

  /** `issue_refresh_token` with an existing family id: HSET of all three fields, then EXPIRE. */
  function Reissue(s: State): State {
    s.(shared := s.shared.(store := Hash(Some(s.shared.nextId), false, true),
                           version := s.shared.version + 1, nextId := s.shared.nextId + 1))
  }

  /** Re-seating is why only fresh families are issued here: in every state it brings the family back to
      life, revoked or not, and an id that was never exchanged is accepted. */
  lemma ReissueRevives(s: State, pid: Pid)
    requires pid !in s.procs
    ensures !Reissue(s).shared.Dead() && WouldVerify(Reissue(s), s.shared.nextId, pid)
  {
  }
}
