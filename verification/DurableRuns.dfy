/**
 * repos/durable_run_repo.py, and the life of one run between background_run_worker.py and the abort
 * route: a database row that workers claim under a lease, execute, and finish.
 *
 * One repository call with its commit is one atomic step. An execution is one `_execute_run`; what
 * the coordinator does in between is not looked into.
 */
module DurableRuns {
  import opened Wrappers
  import EventLog

  type Time = int
  type RunId = nat
  type Worker = string

  datatype Status = Queued | Running | Aborting | Completed | Failed | Aborted

  predicate IsTerminal(s: Status) {
    s.Completed? || s.Failed? || s.Aborted?
  }

  datatype Row = Row(
    status: Status,
    attemptCount: nat,
    leaseOwner: Option<Worker>,
    leaseExpiresAt: Option<Time>,
    replayCursor: nat,
    startedAt: Option<Time>,
    completedAt: Option<Time>,
    failedAt: Option<Time>,
    finalResult: Option<string>,
    finalError: Option<string>,
    createdAt: Time)

  function NewRow(createdAt: Time): Row {
    Row(Queued, 0, None, None, 0, None, None, None, None, None, createdAt)
  }

  predicate IsRunnable(r: Row, now: Time) {
    || r.status.Queued?
    || (r.status.Running? && r.leaseExpiresAt.Some? && r.leaseExpiresAt.value <= now)
  }

  function ClaimedRow(r: Row, owner: Worker, expires: Time, now: Time): Row {
    r.(status := Running,
       attemptCount := r.attemptCount + 1,
       leaseOwner := Some(owner),
       leaseExpiresAt := Some(expires),
       startedAt := if r.startedAt.None? then Some(now) else r.startedAt)
  }

  function CompletedRow(r: Row, result: Option<string>, now: Time): Row {
    r.(status := Completed, finalResult := result, finalError := None, completedAt := Some(now),
       leaseOwner := None, leaseExpiresAt := None)
  }

  function FailedRow(r: Row, message: string, now: Time): Row {
    r.(status := Failed, finalResult := None, finalError := Some(message), failedAt := Some(now),
       leaseOwner := None, leaseExpiresAt := None)
  }

  function AbortingRow(r: Row): Row {
    if IsTerminal(r.status) then r else r.(status := Aborting)
  }

  function AbortedRow(r: Row, reason: Option<string>, now: Time): Row {
    r.(status := Aborted, finalResult := None, finalError := reason, failedAt := Some(now),
       leaseOwner := None, leaseExpiresAt := None)
  }

  /** What ended a run, with what was given for it. */
  datatype Outcome =
    | Done(result: Option<string>, at: Time)
    | Failure(message: string, at: Time)
    | Stopped(reason: Option<string>, at: Time)

  /** The row tells of this outcome and of no other, and nobody has a lease on it. */
  predicate ShowsOutcome(r: Row, o: Outcome) {
    && r.leaseOwner.None? && r.leaseExpiresAt.None?
    && match o
       case Done(result, at) =>
         r.status.Completed? && r.completedAt == Some(at) && r.finalResult == result && r.finalError.None?
       case Failure(message, at) =>
         r.status.Failed? && r.failedAt == Some(at) && r.finalError == Some(message) && r.finalResult.None?
       case Stopped(reason, at) =>
         r.status.Aborted? && r.failedAt == Some(at) && r.finalError == reason && r.finalResult.None?
  }

  predicate SameHistory(a: Row, b: Row) {
    && a.attemptCount == b.attemptCount && a.startedAt == b.startedAt && a.createdAt == b.createdAt
    && a.replayCursor == b.replayCursor
  }

  // -------------------------------------------------------------------------------------------
  // The repository
  // -------------------------------------------------------------------------------------------

  datatype Found<+T> = Found(value: T) | NotFound

  /** `id` is one of the oldest runs that can be claimed now and are not locked by another claim. */
  predicate IsNext(runs: map<RunId, Row>, locked: set<RunId>, now: Time, id: RunId) {
    && id in runs && id !in locked && IsRunnable(runs[id], now)
    && forall j | j in runs && j !in locked && IsRunnable(runs[j], now) :: runs[id].createdAt <= runs[j].createdAt
  }

  lemma {:induction false} OldestExists(runs: map<RunId, Row>, ids: set<RunId>) returns (oldest: RunId)
    requires ids != {} && ids <= runs.Keys
    ensures oldest in ids
    ensures forall j | j in ids :: runs[oldest].createdAt <= runs[j].createdAt
    decreases |ids|
  {
    var x :| x in ids;
    var rest := ids - {x};
    if rest == {} {
      assert ids == {x};
      oldest := x;
    } else {
      var y := OldestExists(runs, rest);
      assert forall j | j in ids :: j == x || j in rest;
      oldest := if runs[x].createdAt < runs[y].createdAt then x else y;
    }
  }

  class DurableRunRepo {
    var runs: map<RunId, Row>
    var events: map<RunId, map<nat, EventLog.Event>>

    ghost predicate Valid()
      reads this
    {
      runs.Keys == events.Keys
    }

    constructor ()
      ensures Valid() && runs == map[]
    {
      runs, events := map[], map[];
    }

    /** A new run is queued, unclaimed, and has an empty log. */
    method Create(id: RunId, now: Time)
      requires Valid() && id !in runs
      modifies this
      ensures Valid()
      ensures runs == old(runs)[id := NewRow(now)] && events == old(events)[id := map[]]
    {
      runs := runs[id := NewRow(now)];
      events := events[id := map[]];
    }

    /** Claims one of the oldest claimable runs; nothing changes when there is none. */
    method ClaimNextRunnable(owner: Worker, expires: Time, now: Time, locked: set<RunId>)
      returns (claimed: Option<RunId>)
      requires Valid()
      modifies this`runs
      ensures Valid()
      ensures claimed.None? ==> runs == old(runs)
      ensures claimed.None? ==> forall j | j in runs && j !in locked :: !IsRunnable(runs[j], now)
      ensures claimed.Some? ==> IsNext(old(runs), locked, now, claimed.value)
      ensures claimed.Some? ==>
        runs == old(runs)[claimed.value := ClaimedRow(old(runs)[claimed.value], owner, expires, now)]
    {
      var candidates := set j | j in runs && j !in locked && IsRunnable(runs[j], now);
      if candidates == {} {
        assert forall j | j in runs && j !in locked && IsRunnable(runs[j], now) :: j in candidates;
        return None;
      }
      ghost var oldest := OldestExists(runs, candidates);
      var id :| id in candidates && forall j | j in candidates :: runs[id].createdAt <= runs[j].createdAt;
      assert IsNext(runs, locked, now, id);
      runs := runs[id := ClaimedRow(runs[id], owner, expires, now)];
      claimed := Some(id);
    }

    /** Only the owner of the lease renews it; anyone else is told there is no such run. */
    method HeartbeatLease(id: RunId, owner: Worker, expires: Time) returns (r: Found<Row>)
      requires Valid()
      modifies this`runs
      ensures Valid()
      ensures r.Found? <==> id in old(runs) && old(runs)[id].leaseOwner == Some(owner)
      ensures r.NotFound? ==> runs == old(runs)
      ensures r.Found? ==> r.value == old(runs)[id].(leaseExpiresAt := Some(expires)) && runs == old(runs)[id := r.value]
    {
      if id !in runs || runs[id].leaseOwner != Some(owner) {
        return NotFound;
      }
      r := Found(runs[id].(leaseExpiresAt := Some(expires)));
      runs := runs[id := r.value];
    }

    /** The event takes the number after the highest, and the cursor follows it. */
    method AppendEvent(id: RunId, event: EventLog.Event) returns (r: Found<nat>)
      requires Valid()
      modifies this
      ensures Valid()
      ensures r.Found? <==> id in old(runs)
      ensures r.NotFound? ==> runs == old(runs) && events == old(events)
      ensures r.Found? ==> r.value == EventLog.NextNumber(old(events)[id])
      ensures r.Found? ==> events == old(events)[id := EventLog.Appended(old(events)[id], event)]
      ensures r.Found? ==> runs == old(runs)[id := old(runs)[id].(replayCursor := r.value)]
    {
      if id !in runs {
        return NotFound;
      }
      var log := events[id];
      var next: nat := 1;
      ghost var highest := EventLog.MaxKey(log);
      if log != map[] {
        var k :| k in log && forall j | j in log :: j <= k;
        next := k + 1;
      }
      events := events[id := log[next := event]];
      runs := runs[id := runs[id].(replayCursor := next)];
      r := Found(next);
    }

    method MarkCompleted(id: RunId, result: Option<string>, now: Time) returns (ok: bool)
      requires Valid()
      modifies this`runs
      ensures Valid() && ok == (id in old(runs))
      ensures runs == if ok then old(runs)[id := CompletedRow(old(runs)[id], result, now)] else old(runs)
      ensures ok ==> ShowsOutcome(runs[id], Done(result, now)) && SameHistory(runs[id], old(runs)[id])
    {
      ok := id in runs;
      if ok { runs := runs[id := CompletedRow(runs[id], result, now)]; }
    }

    method MarkFailed(id: RunId, message: string, now: Time) returns (ok: bool)
      requires Valid()
      modifies this`runs
      ensures Valid() && ok == (id in old(runs))
      ensures runs == if ok then old(runs)[id := FailedRow(old(runs)[id], message, now)] else old(runs)
      ensures ok ==> ShowsOutcome(runs[id], Failure(message, now)) && SameHistory(runs[id], old(runs)[id])
    {
      ok := id in runs;
      if ok { runs := runs[id := FailedRow(runs[id], message, now)]; }
    }

    /** A run that already ended keeps its whole row. */
    method MarkAborting(id: RunId) returns (ok: bool)
      requires Valid()
      modifies this`runs
      ensures Valid() && ok == (id in old(runs))
      ensures runs == if ok then old(runs)[id := AbortingRow(old(runs)[id])] else old(runs)
      ensures ok && IsTerminal(old(runs)[id].status) ==> runs == old(runs)
    {
      ok := id in runs;
      if ok {
        assert IsTerminal(runs[id].status) ==> runs[id := runs[id]] == runs;
        runs := runs[id := AbortingRow(runs[id])];
      }
    }

    method MarkAborted(id: RunId, reason: Option<string>, now: Time) returns (ok: bool)
      requires Valid()
      modifies this`runs
      ensures Valid() && ok == (id in old(runs))
      ensures runs == if ok then old(runs)[id := AbortedRow(old(runs)[id], reason, now)] else old(runs)
      ensures ok ==> ShowsOutcome(runs[id], Stopped(reason, now)) && SameHistory(runs[id], old(runs)[id])
    {
      ok := id in runs;
      if ok { runs := runs[id := AbortedRow(runs[id], reason, now)]; }
    }
  }

  // -------------------------------------------------------------------------------------------
  // The life of one run
  // -------------------------------------------------------------------------------------------

  datatype Lease = Lease(owner: Worker, start: Time, end: Time)

  /** An execution is at work, or its coordinator came back and it last read the row as (not) aborting. */
  datatype Phase = Working | Returned(sawAborting: bool)

  /** The row, the executions that go on, and every lease given so far; execution k runs under lease k. */
  datatype State = State(row: Row, executing: map<nat, Phase>, claims: seq<Lease>)

  datatype Op =
    | Claim(owner: Worker, expires: Time, now: Time)
    | Heartbeat(owner: Worker, expires: Time)
    | RequestAbort
    | Return(execution: nat)
    | Finish(execution: nat, reason: string, now: Time)
    | Fail(execution: nat, message: string, now: Time)
    | Crash(execution: nat)

  function Start(createdAt: Time): State {
    State(NewRow(createdAt), map[], [])
  }

  function Renewed(claims: seq<Lease>, expires: Time): seq<Lease> {
    if |claims| == 0 then claims else claims[|claims| - 1 := claims[|claims| - 1].(end := expires)]
  }

  /**
   * Return stands for both ways an execution learns of an abort: the read after the coordinator came
   * back, and the read before an event is appended, which raises RunAbortedError. The row is read
   * there and written in a later transaction, by Finish. Fail is any other exception, and Crash a
   * worker that dies and writes nothing.
   */
  function Step(s: State, op: Op): State {
    match op
    case Claim(owner, expires, now) =>
      if IsRunnable(s.row, now) then
        State(ClaimedRow(s.row, owner, expires, now),
              s.executing[|s.claims| := Working],
              s.claims + [Lease(owner, now, expires)])
      else s
    case Heartbeat(owner, expires) =>
      if s.row.leaseOwner == Some(owner) then
        s.(row := s.row.(leaseExpiresAt := Some(expires)), claims := Renewed(s.claims, expires))
      else s
    case RequestAbort => s.(row := AbortingRow(s.row))
    case Return(e) =>
      if e in s.executing && s.executing[e].Working? then
        s.(executing := s.executing[e := Returned(s.row.status.Aborting?)])
      else s
    case Finish(e, reason, now) =>
      if e in s.executing && s.executing[e].Returned? then
        s.(row := if s.executing[e].sawAborting then AbortedRow(s.row, Some(reason), now)
                  else CompletedRow(s.row, None, now),
           executing := s.executing - {e})
      else s
    case Fail(e, message, now) =>
      if e in s.executing then
        s.(row := FailedRow(s.row, message, now), executing := s.executing - {e})
      else s
    case Crash(e) => s.(executing := s.executing - {e})
  }

  function Run(s: State, ops: seq<Op>): State
    decreases |ops|
  {
    if |ops| == 0 then s else Run(Step(s, ops[0]), ops[1..])
  }

  /** What the row says at every moment: the lease, the attempts, the first start and the outcome. */
  predicate IsConsistent(s: State) {
    var r := s.row;
    && (r.status.Running? ==> r.leaseOwner.Some? && r.leaseExpiresAt.Some?)
    && (r.status.Queued? || IsTerminal(r.status) ==> r.leaseOwner.None? && r.leaseExpiresAt.None?)
    && (r.leaseOwner.Some? <==> r.leaseExpiresAt.Some?)
    && r.attemptCount == |s.claims|
    && r.startedAt == (if |s.claims| == 0 then None else Some(s.claims[0].start))
    && (r.status.Queued? ==> |s.claims| == 0)
    && (r.leaseOwner.Some? ==> |s.claims| > 0 && r.leaseOwner.value == s.claims[|s.claims| - 1].owner)
    && (r.leaseExpiresAt.Some? ==> r.leaseExpiresAt.value == s.claims[|s.claims| - 1].end)
    && (r.status.Completed? ==> r.completedAt.Some? && r.finalError.None?)
    && (r.status.Failed? || r.status.Aborted? ==> r.failedAt.Some? && r.finalError.Some? && r.finalResult.None?)
    && (!IsTerminal(r.status) ==> r.completedAt.None? && r.failedAt.None? && r.finalError.None?)
    && forall e | e in s.executing :: e < |s.claims|
  }

  lemma StepKeepsConsistent(s: State, op: Op)
    requires IsConsistent(s)
    ensures IsConsistent(Step(s, op))
  {
  }

  /** The row tells the truth over every schedule, overlapping executions included. */
  lemma {:induction false} RowStaysConsistent(s: State, ops: seq<Op>)
    requires IsConsistent(s)
    ensures IsConsistent(Run(s, ops))
    decreases |ops|
  {
    if |ops| > 0 {
      StepKeepsConsistent(s, ops[0]);
      RowStaysConsistent(Step(s, ops[0]), ops[1..]);
    }
  }

  // -------------------------------------------------------------------------------------------
  // Leases
  // -------------------------------------------------------------------------------------------

  /** Each lease begins no earlier than the one before it ended. */
  predicate IsHandover(claims: seq<Lease>)
    decreases |claims|
  {
    |claims| >= 2 ==>
      && claims[|claims| - 2].end <= claims[|claims| - 1].start
      && IsHandover(claims[..|claims| - 1])
  }

  lemma StepKeepsHandover(s: State, op: Op)
    requires IsConsistent(s) && IsHandover(s.claims)
    ensures IsHandover(Step(s, op).claims)
  {
    var n := |s.claims|;
    if op.Claim? {
      assert (s.claims + [Lease(op.owner, op.now, op.expires)])[..n] == s.claims;
    } else if op.Heartbeat? && n >= 1 {
      assert Renewed(s.claims, op.expires)[..n - 1] == s.claims[..n - 1];
    }
  }

  /** Over every schedule a run is claimed again only when the lease then in force has expired. */
  lemma {:induction false} LeasesAreHandedOver(s: State, ops: seq<Op>)
    requires IsConsistent(s) && IsHandover(s.claims)
    ensures IsHandover(Run(s, ops).claims)
    decreases |ops|
  {
    if |ops| > 0 {
      StepKeepsHandover(s, ops[0]);
      StepKeepsConsistent(s, ops[0]);
      LeasesAreHandedOver(Step(s, ops[0]), ops[1..]);
    }
  }

  lemma {:induction false} HandoverAt(claims: seq<Lease>, i: nat)
    requires IsHandover(claims) && i + 1 < |claims|
    ensures claims[i].end <= claims[i + 1].start
    decreases |claims|
  {
    if i + 2 < |claims| {
      HandoverAt(claims[..|claims| - 1], i);
    }
  }

  predicate StartsInOrder(claims: seq<Lease>) {
    forall i, j | 0 <= i <= j < |claims| :: claims[i].start <= claims[j].start
  }

  /**
   * No two leases of a run are in force at the same moment, however far apart in its history, as
   * long as the clocks the claims were made by never went back.
   */
  lemma LeasesAreDisjoint(createdAt: Time, ops: seq<Op>, i: nat, j: nat, t: Time)
    requires var claims := Run(Start(createdAt), ops).claims; StartsInOrder(claims) && i < j < |claims|
    ensures var claims := Run(Start(createdAt), ops).claims;
            !(claims[i].start <= t < claims[i].end && claims[j].start <= t < claims[j].end)
  {
    LeasesAreHandedOver(Start(createdAt), ops);
    HandoverAt(Run(Start(createdAt), ops).claims, i);
  }

  /** When no lease ends before it began, the claims are in order whatever the clocks did. */
  lemma {:induction false} ForwardLeasesAreInOrder(claims: seq<Lease>, i: nat, j: nat)
    requires IsHandover(claims) && i <= j < |claims|
    requires AreForward(claims)
    ensures claims[i].start <= claims[j].start
    decreases j
  {
    if i < j {
      ForwardLeasesAreInOrder(claims, i, j - 1);
      HandoverAt(claims, j - 1);
    }
  }

  /**
   * Every claim asks for a lease that does not end before it begins, and every heartbeat that is let
   * through for an expiry that is not before the start of the lease it renews.
   */
  predicate AsksForward(s: State, ops: seq<Op>)
    decreases |ops|
  {
    |ops| > 0 ==>
      && (ops[0].Claim? ==> ops[0].now <= ops[0].expires)
      && (ops[0].Heartbeat? && s.row.leaseOwner == Some(ops[0].owner) && |s.claims| > 0 ==> s.claims[|s.claims| - 1].start <= ops[0].expires)
      && AsksForward(Step(s, ops[0]), ops[1..])
  }

  predicate AreForward(claims: seq<Lease>) {
    forall k | 0 <= k < |claims| :: claims[k].start <= claims[k].end
  }

  lemma {:induction false} LeasesStayForward(s: State, ops: seq<Op>)
    requires AreForward(s.claims) && AsksForward(s, ops)
    ensures AreForward(Run(s, ops).claims)
    decreases |ops|
  {
    if |ops| > 0 {
      LeasesStayForward(Step(s, ops[0]), ops[1..]);
    }
  }

  lemma HandedOverIsDisjoint(claims: seq<Lease>, t: Time)
    requires IsHandover(claims) && AreForward(claims)
    ensures !BothInForce(claims, t)
  {
    if i, j :| 0 <= i < j < |claims| && claims[i].start <= t < claims[i].end && claims[j].start <= t < claims[j].end {
      HandoverAt(claims, i);
      ForwardLeasesAreInOrder(claims, i + 1, j);
    }
  }

  /** A condition on the calls alone: when they ask forward, no two leases are ever in force together. */
  lemma ForwardCallsKeepLeasesDisjoint(createdAt: Time, ops: seq<Op>, t: Time)
    requires AsksForward(Start(createdAt), ops)
    ensures !BothInForce(Run(Start(createdAt), ops).claims, t)
  {
    LeasesAreHandedOver(Start(createdAt), ops);
    LeasesStayForward(Start(createdAt), ops);
    HandedOverIsDisjoint(Run(Start(createdAt), ops).claims, t);
  }

  /** The calls of the workers: each claims for its own lease time from its own clock, and none heartbeats. */
  predicate AreWorkerCalls(ops: seq<Op>, leaseSeconds: nat)
    decreases |ops|
  {
    |ops| > 0 ==>
      && !ops[0].Heartbeat? && (ops[0].Claim? ==> ops[0].expires == ops[0].now + leaseSeconds)
      && AreWorkerCalls(ops[1..], leaseSeconds)
  }

  lemma {:induction false} WorkersAskForward(s: State, ops: seq<Op>, leaseSeconds: nat)
    requires AreWorkerCalls(ops, leaseSeconds)
    ensures AsksForward(s, ops)
    decreases |ops|
  {
    if |ops| > 0 {
      WorkersAskForward(Step(s, ops[0]), ops[1..], leaseSeconds);
    }
  }

  /** As the server calls the repository, no two leases of a run are in force together, whatever its clocks do. */
  lemma WorkerLeasesAreDisjoint(createdAt: Time, ops: seq<Op>, leaseSeconds: nat, t: Time)
    requires AreWorkerCalls(ops, leaseSeconds)
    ensures !BothInForce(Run(Start(createdAt), ops).claims, t)
  {
    WorkersAskForward(Start(createdAt), ops, leaseSeconds);
    ForwardCallsKeepLeasesDisjoint(createdAt, ops, t);
  }

  /**
   * The repository itself promises no more: a heartbeat that sets the expiry before the claim, which
   * nothing in the server sends, followed by a claim on a clock that runs behind, puts two leases in
   * force at once.
   */
  lemma BackdatedHeartbeatOverlaps(a: Worker, b: Worker)
    requires a != b
    ensures exists ops :: BothInForce(Run(Start(0), ops).claims, 5)
  {
    var ops := [Claim(a, 60, 0), Claim(b, 120, 60), Heartbeat(b, 1), Claim(a, 62, 2)];
    var s1 := Step(Start(0), ops[0]);
    var s2 := Step(s1, ops[1]);
    var s3 := Step(s2, ops[2]);
    var s4 := Step(s3, ops[3]);
    RunTwo(Start(0), ops[0], ops[1], ops[2..]);
    RunTwo(s2, ops[2], ops[3], []);
    assert ops == [ops[0], ops[1]] + ops[2..];
    assert ops[2..] == [ops[2], ops[3]] + [];
    assert s4.claims == [Lease(a, 0, 60), Lease(b, 60, 1), Lease(a, 2, 62)];
    assert s4.claims[0].end == 60 && s4.claims[2].end == 62;
    assert BothInForce(Run(Start(0), ops).claims, 5);
  }

  /** Nor without the condition on claims: one that ends before it begins lets the next begin earlier still. */
  lemma BackdatedClaimOverlaps(a: Worker, b: Worker)
    ensures exists ops: seq<Op> :: BothInForce(Run(Start(0), ops).claims, 5) && forall op | op in ops :: op.Claim?
  {
    var ops := [Claim(a, 60, 0), Claim(b, 1, 60)] + [Claim(a, 62, 2)];
    var s2 := Step(Step(Start(0), ops[0]), ops[1]);
    var s3 := Step(s2, ops[2]);
    RunTwo(Start(0), ops[0], ops[1], [ops[2]]);
    assert [ops[2]][1..] == [];
    assert s3.claims == [Lease(a, 0, 60), Lease(b, 60, 1), Lease(a, 2, 62)];
    assert s3.claims[0].end == 60 && s3.claims[2].end == 62;
    assert BothInForce(Run(Start(0), ops).claims, 5);
  }

  predicate BothInForce(claims: seq<Lease>, t: Time) {
    exists i, j | 0 <= i < j < |claims| ::
      claims[i].start <= t < claims[i].end && claims[j].start <= t < claims[j].end
  }

  lemma RunTwo(s: State, a: Op, b: Op, ops: seq<Op>)
    ensures Run(s, [a, b] + ops) == Run(Step(Step(s, a), b), ops)
  {
    assert ([a, b] + ops)[1..] == [b] + ops;
    assert ([b] + ops)[1..] == ops;
  }

  lemma {:induction false} RunConcat(s: State, first: seq<Op>, second: seq<Op>)
    ensures Run(s, first + second) == Run(Run(s, first), second)
    decreases |first|
  {
    if |first| == 0 {
      assert first + second == second;
    } else {
      assert (first + second)[1..] == first[1..] + second;
      RunConcat(Step(s, first[0]), first[1..], second);
    }
  }

  // -------------------------------------------------------------------------------------------
  // Endings
  // -------------------------------------------------------------------------------------------

  lemma StepAfterEnd(s: State, op: Op)
    requires IsTerminal(s.row.status)
    ensures IsTerminal(Step(s, op).row.status) && Step(s, op).claims == s.claims
    requires IsConsistent(s)
    ensures Step(s, op).executing.Keys <= s.executing.Keys
    ensures s.executing == map[] ==> Step(s, op) == s
  {
  }

  /** A run that ended is never claimed again, and stays ended over every schedule. */
  lemma {:induction false} EndedStaysEnded(s: State, ops: seq<Op>)
    requires IsTerminal(s.row.status) && IsConsistent(s)
    ensures IsTerminal(Run(s, ops).row.status) && Run(s, ops).claims == s.claims
    ensures s.executing == map[] ==> Run(s, ops) == s
    decreases |ops|
  {
    if |ops| > 0 {
      StepAfterEnd(s, ops[0]);
      StepKeepsConsistent(s, ops[0]);
      EndedStaysEnded(Step(s, ops[0]), ops[1..]);
    }
  }

  lemma {:induction false} AbortingStaysAborting(s: State, ops: seq<Op>)
    requires s.row.status.Aborting? && s.executing == map[]
    ensures Run(s, ops).row.status.Aborting?
    decreases |ops|
  {
    if |ops| > 0 {
      AbortingStaysAborting(Step(s, ops[0]), ops[1..]);
    }
  }

  /** What a step writes as the run's outcome, if it does. */
  function Written(s: State, op: Op): seq<Outcome> {
    match op
    case Finish(e, reason, now) =>
      if e !in s.executing || s.executing[e].Working? then []
      else if s.executing[e].sawAborting then [Stopped(Some(reason), now)]
      else [Done(None, now)]
    case Fail(e, message, now) => if e in s.executing then [Failure(message, now)] else []
    case _ => []
  }

  function Outcomes(s: State, ops: seq<Op>): seq<Outcome>
    decreases |ops|
  {
    if |ops| == 0 then [] else Written(s, ops[0]) + Outcomes(Step(s, ops[0]), ops[1..])
  }

  /** What the row tells of its outcome is as it was. */
  predicate SameOutcome(a: Row, b: Row) {
    && (IsTerminal(a.status) <==> IsTerminal(b.status)) && (IsTerminal(b.status) ==> a.status == b.status)
    && (IsTerminal(b.status) ==> a.leaseOwner == b.leaseOwner && a.leaseExpiresAt == b.leaseExpiresAt)
    && a.completedAt == b.completedAt && a.failedAt == b.failedAt
    && a.finalResult == b.finalResult && a.finalError == b.finalError
  }

  lemma StepWritesOutcome(s: State, op: Op)
    requires IsConsistent(s)
    ensures Written(s, op) == [] ==> SameOutcome(Step(s, op).row, s.row)
    ensures Written(s, op) != [] ==> ShowsOutcome(Step(s, op).row, Written(s, op)[0])
    ensures |Written(s, op)| <= 1
  {
  }

  /**
   * Over every schedule, the row shows the last outcome that an execution wrote, with its message or
   * reason, and while none is written it shows what it showed.
   */
  lemma {:induction false} LastOutcomeIsShown(s: State, ops: seq<Op>)
    requires IsConsistent(s)
    ensures var outcomes := Outcomes(s, ops);
            if |outcomes| == 0 then SameOutcome(Run(s, ops).row, s.row)
            else ShowsOutcome(Run(s, ops).row, outcomes[|outcomes| - 1])
    decreases |ops|
  {
    if |ops| > 0 {
      StepWritesOutcome(s, ops[0]);
      StepKeepsConsistent(s, ops[0]);
      LastOutcomeIsShown(Step(s, ops[0]), ops[1..]);
    }
  }

  ghost predicate StatusIsSettled(s: State) {
    forall ops :: Run(s, ops).row.status == s.row.status
  }

  lemma StatusCanChange(s: State, e: nat) returns (ops: seq<Op>)
    requires e in s.executing && !s.row.status.Queued? && !s.row.status.Running?
    ensures Run(s, ops).row.status != s.row.status
  {
    var message: string := [];
    if !s.row.status.Failed? {
      ops := [Fail(e, message, 0)];
      assert ops[1..] == [];
    } else {
      ops := [Return(e), Finish(e, message, 0)];
      RunTwo(s, ops[0], ops[1], []);
      assert ops == [ops[0], ops[1]] + [];
    }
  }

  /**
   * Once a run is being aborted or has ended, its status is settled exactly when no execution of it
   * goes on: completed, failed and aborted can still replace one another as long as a second
   * execution is at work, and a run aborted with none at work is never ended.
   */
  lemma SettledIff(s: State)
    requires IsConsistent(s) && !s.row.status.Queued? && !s.row.status.Running?
    ensures StatusIsSettled(s) <==> s.executing == map[]
  {
    if s.executing == map[] {
      forall ops ensures Run(s, ops).row.status == s.row.status {
        if s.row.status.Aborting? {
          AbortingStaysAborting(s, ops);
        } else {
          EndedStaysEnded(s, ops);
        }
      }
    } else {
      var e :| e in s.executing;
      var ops := StatusCanChange(s, e);
    }
  }

  /** An abort asked for while the run is queued is accepted and never comes to an end. */
  lemma QueuedAbortNeverEnds(createdAt: Time, ops: seq<Op>)
    ensures Run(Start(createdAt), [RequestAbort] + ops).row.status.Aborting?
  {
    assert ([RequestAbort] + ops)[1..] == ops;
    AbortingStaysAborting(Step(Start(createdAt), RequestAbort), ops);
  }

  /** No claim succeeds while an execution of the run goes on. */
  predicate NeverOverlaps(s: State, ops: seq<Op>)
    decreases |ops|
  {
    |ops| > 0 ==>
      && (ops[0].Claim? && IsRunnable(s.row, ops[0].now) ==> s.executing == map[])
      && NeverOverlaps(Step(s, ops[0]), ops[1..])
  }

  /** At most one execution, and none once the run has ended. */
  predicate IsSingle(s: State) {
    && (forall e, f | e in s.executing && f in s.executing :: e == f)
    && (IsTerminal(s.row.status) || s.row.status.Queued? ==> s.executing == map[])
  }

  lemma {:induction false} SerialRunsStaySingle(s: State, ops: seq<Op>)
    requires IsConsistent(s) && IsSingle(s) && NeverOverlaps(s, ops)
    ensures IsSingle(Run(s, ops))
    decreases |ops|
  {
    if |ops| > 0 {
      StepKeepsConsistent(s, ops[0]);
      StepKeepsSingle(s, ops[0]);
      SerialRunsStaySingle(Step(s, ops[0]), ops[1..]);
    }
  }

  lemma StepKeepsSingle(s: State, op: Op)
    requires IsConsistent(s) && IsSingle(s)
    requires op.Claim? && IsRunnable(s.row, op.now) ==> s.executing == map[]
    ensures IsSingle(Step(s, op))
  {
  }

  /** Without overlapping executions the row of a run that ended is never written again. */
  lemma EndedRowIsFrozen(createdAt: Time, first: seq<Op>, later: seq<Op>)
    requires NeverOverlaps(Start(createdAt), first)
    ensures var ended := Run(Start(createdAt), first);
            IsTerminal(ended.row.status) ==> Run(Start(createdAt), first + later).row == ended.row
  {
    var ended := Run(Start(createdAt), first);
    RowStaysConsistent(Start(createdAt), first);
    SerialRunsStaySingle(Start(createdAt), first);
    RunConcat(Start(createdAt), first, later);
    if IsTerminal(ended.row.status) {
      EndedStaysEnded(ended, later);
    }
  }

  /**
   * The worker never renews its lease: an execution that outlasts it is claimed a second time, and
   * the outcome the second one wrote is replaced by the first one's.
   */
  lemma OutlastedLeaseReplacesOutcome(owner: Worker, message: string)
    ensures var ops := [Claim(owner, 60, 0), Claim(owner, 120, 60), Return(1), Finish(1, message, 61)];
            && Run(Start(0), ops).row.status.Completed?
            && Run(Start(0), ops + [Fail(0, message, 62)]).row.status.Failed?
  {
    var ops := [Claim(owner, 60, 0), Claim(owner, 120, 60), Return(1), Finish(1, message, 61)];
    var s2 := Step(Step(Start(0), ops[0]), ops[1]);
    RunTwo(Start(0), ops[0], ops[1], ops[2..]);
    RunTwo(s2, ops[2], ops[3], []);
    assert ops == [ops[0], ops[1]] + ops[2..];
    assert ops[2..] == [ops[2], ops[3]] + [];
    RunConcat(Start(0), ops, [Fail(0, message, 62)]);
    assert [Fail(0, message, 62)][1..] == [];
  }

  ghost predicate CanComplete(s: State) {
    exists ops :: Run(s, ops).row.status.Completed?
  }

  /** Every execution that is to read the row is the only one, and will find it aborting. */
  predicate AbortIsSeen(s: State) {
    && !s.row.status.Queued? && !s.row.status.Running? && !s.row.status.Completed?
    && (forall e | e in s.executing :: s.executing[e] != Returned(false))
    && (forall e, f | e in s.executing && f in s.executing && s.executing[e].Working? :: e == f)
    && (!s.row.status.Aborting? ==> forall e | e in s.executing :: !s.executing[e].Working?)
  }

  lemma {:induction false} SeenAbortNeverCompletes(s: State, ops: seq<Op>)
    requires AbortIsSeen(s)
    ensures !Run(s, ops).row.status.Completed?
    decreases |ops|
  {
    if |ops| > 0 {
      SeenAbortNeverCompletes(Step(s, ops[0]), ops[1..]);
    }
  }

  /** One execution fails and takes the aborting status away before another reads it. */
  lemma OverlapLosesAbort(s: State, e: nat, f: nat)
    requires s.row.status.Aborting? && e in s.executing && f in s.executing && e != f && s.executing[e].Working?
    ensures CanComplete(s)
  {
    var message: string := [];
    var ops := [Fail(f, message, 0), Return(e)] + [Finish(e, message, 0)];
    RunTwo(s, Fail(f, message, 0), Return(e), [Finish(e, message, 0)]);
    assert [Finish(e, message, 0)][1..] == [];
    assert Run(s, ops).row.status.Completed?;
  }

  /**
   * An accepted abort can still end in a completed run exactly when an execution had come back and
   * read the row before the abort was asked for, or when one is still at work while another one,
   * which began before or after it, can end first.
   */
  lemma AbortIsLostIff(s: State)
    requires s.row.status.Aborting?
    ensures CanComplete(s) <==>
            || (exists e :: e in s.executing && s.executing[e] == Returned(false))
            || (exists e, f :: e in s.executing && f in s.executing && e != f && s.executing[e].Working?)
  {
    if e :| e in s.executing && s.executing[e] == Returned(false) {
      var message: string := [];
      var ops := [Finish(e, message, 0)];
      assert ops[1..] == [];
      assert Run(s, ops).row.status.Completed?;
    } else if e, f :| e in s.executing && f in s.executing && e != f && s.executing[e].Working? {
      OverlapLosesAbort(s, e, f);
    } else {
      forall ops ensures !Run(s, ops).row.status.Completed? {
        SeenAbortNeverCompletes(s, ops);
      }
    }
  }
}
