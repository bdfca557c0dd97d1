/**
 * sandbox.py: sandbox sessions that pin one container of a bounded pool for a whole turn, with any
 * number of threads entering and closing them at once.
 *
 * The pool of llm_sandbox is not part of this model beyond what the sessions rely on: it hands out
 * an idle or a new container, never has more than its maximum, and takes a container back. A
 * session's own slot is set by the base class on entry and emptied by it on exit.
 */
module SandboxPool {
  type Container = nat
  type Session = nat
  type Thread = nat

  datatype Pool = Pool(
    max: nat,
    destroysOnRelease: bool,
    idle: set<Container>,
    out: set<Container>,
    created: nat,
    destroyed: nat)

  function Took(p: Pool, c: Container): Pool {
    p.(idle := p.idle - {c}, out := p.out + {c}, created := if c in p.idle then p.created else p.created + 1)
  }

  /** An idle container, or the next new one while there is room. */
  predicate CanTake(p: Pool, c: Container) {
    c in p.idle || (c == p.created && |p.idle| + |p.out| < p.max)
  }

  /** The networked pool destroys what it is given back; the locked pool keeps it warm. */
  function Returned(p: Pool, c: Container): Pool {
    if p.destroysOnRelease then p.(out := p.out - {c}, destroyed := p.destroyed + 1)
    else p.(out := p.out - {c}, idle := p.idle + {c})
  }

  /** Where a thread is in `__enter__` or `close`; Releasing comes after the lock was given back. */
  datatype Pc = WantEnter(s: Session) | Acquiring(s: Session) | WantClose(s: Session) | Releasing(s: Session)

  datatype Handout = Handout(s: Session, c: Container)

  /**
   * `held`, `slot` and `lock` are the fields of the sessions. The rest is history: `closed` has the
   * sessions whose lock a close has taken, `late` those of them that acquired afterwards, `lost` the
   * containers whose slot was overwritten, and `served` every handout.
   */
  datatype State = State(
    pool: Pool,
    held: set<Session>,
    slot: map<Session, Container>,
    lock: map<Session, Thread>,
    threads: map<Thread, Pc>,
    closed: set<Session>,
    late: set<Session>,
    lost: map<Container, Session>,
    served: seq<Handout>)

  datatype Op =
    | StartEnter(t: Thread, s: Session)
    | EnterLock(t: Thread)
    | AcquireOk(t: Thread, c: Container)
    | AcquireFail(t: Thread)
    | StartClose(t: Thread, s: Session)
    | CloseLock(t: Thread)
    | Release(t: Thread)
    | Prewarm

  function Start(max: nat, destroysOnRelease: bool): State {
    State(Pool(max, destroysOnRelease, {}, {}, 0, 0), {}, map[], map[], map[], {}, {}, map[], [])
  }

  function Acquired(s: State, t: Thread, x: Session, c: Container): State {
    s.(pool := Took(s.pool, c),
       held := s.held + {x},
       slot := s.slot[x := c],
       lock := s.lock - {x},
       threads := s.threads - {t},
       late := if x in s.closed then s.late + {x} else s.late,
       lost := if x in s.slot then s.lost[s.slot[x] := x] else s.lost,
       served := s.served + [Handout(x, c)])
  }

  function Released(s: State, t: Thread, x: Session): State {
    if x in s.slot then
      s.(pool := Returned(s.pool, s.slot[x]), slot := s.slot - {x}, threads := s.threads - {t})
    else s.(threads := s.threads - {t})
  }

  function Step(s: State, op: Op): State {
    match op
    case StartEnter(t, x) => if t in s.threads then s else s.(threads := s.threads[t := WantEnter(x)])
    case EnterLock(t) =>
      if t in s.threads && s.threads[t].WantEnter? && s.threads[t].s !in s.lock then
        var x := s.threads[t].s;
        if x in s.held then s.(threads := s.threads - {t})
        else s.(lock := s.lock[x := t], threads := s.threads[t := Acquiring(x)])
      else s
    case AcquireOk(t, c) =>
      if t in s.threads && s.threads[t].Acquiring? && CanTake(s.pool, c) then Acquired(s, t, s.threads[t].s, c)
      else s
    case AcquireFail(t) =>
      if t in s.threads && s.threads[t].Acquiring? then
        s.(lock := s.lock - {s.threads[t].s}, threads := s.threads - {t})
      else s
    case StartClose(t, x) => if t in s.threads then s else s.(threads := s.threads[t := WantClose(x)])
    case CloseLock(t) =>
      if t in s.threads && s.threads[t].WantClose? && s.threads[t].s !in s.lock then
        var x := s.threads[t].s;
        if x in s.held then
          s.(held := s.held - {x}, threads := s.threads[t := Releasing(x)], closed := s.closed + {x})
        else s.(threads := s.threads - {t}, closed := s.closed + {x})
      else s
    case Release(t) =>
      if t in s.threads && s.threads[t].Releasing? then Released(s, t, s.threads[t].s) else s
    case Prewarm =>
      if |s.pool.idle| + |s.pool.out| < s.pool.max then
        s.(pool := s.pool.(idle := s.pool.idle + {s.pool.created}, created := s.pool.created + 1))
      else s
  }

  function Run(s: State, ops: seq<Op>): State
    decreases |ops|
  {
    if |ops| == 0 then s else Run(Step(s, ops[0]), ops[1..])
  }

  // -------------------------------------------------------------------------------------------
  // Containers are conserved
  // -------------------------------------------------------------------------------------------

  /** Nothing is idle and out at once, and what was created and not destroyed is one or the other. */
  predicate IsConserved(p: Pool) {
    && (forall c | c in p.idle :: c < p.created && c !in p.out)
    && (forall c | c in p.out :: c < p.created)
    && p.created == p.destroyed + |p.idle| + |p.out|
    && |p.idle| + |p.out| <= p.max
  }

  lemma AddOne(a: set<Container>, c: Container)
    requires c !in a
    ensures |a + {c}| == |a| + 1
  {
  }

  lemma TakeOne(a: set<Container>, c: Container)
    requires c in a
    ensures |a - {c}| == |a| - 1
  {
  }

  lemma TakingConserves(p: Pool, c: Container)
    requires IsConserved(p) && CanTake(p, c)
    ensures IsConserved(Took(p, c)) && c !in p.out
  {
    AddOne(p.out, c);
    if c in p.idle {
      TakeOne(p.idle, c);
    } else {
      assert p.idle - {c} == p.idle;
    }
  }

  lemma ReturningConserves(p: Pool, c: Container)
    requires IsConserved(p) && c in p.out
    ensures IsConserved(Returned(p, c))
  {
    TakeOne(p.out, c);
    if !p.destroysOnRelease {
      AddOne(p.idle, c);
    }
  }

  lemma PrewarmConserves(p: Pool)
    requires IsConserved(p) && |p.idle| + |p.out| < p.max
    ensures IsConserved(p.(idle := p.idle + {p.created}, created := p.created + 1))
  {
    AddOne(p.idle, p.created);
  }

  /** Every container that is out is in one session's slot, or was lost; never in two places. */
  predicate IsAttributed(s: State) {
    && (forall x | x in s.slot :: s.slot[x] in s.pool.out && s.slot[x] !in s.lost)
    && (forall x, y | x in s.slot && y in s.slot && s.slot[x] == s.slot[y] :: x == y)
    && (forall c | c in s.lost :: c in s.pool.out)
    && (forall c | c in s.pool.out :: c in s.lost || c in s.slot.Values)
  }

  /** A thread acquires exactly while it has the lock of its session. */
  predicate IsLocked(s: State) {
    && (forall x | x in s.lock :: s.lock[x] in s.threads && s.threads[s.lock[x]] == Acquiring(x))
    && (forall t | t in s.threads && s.threads[t].Acquiring? ::
          s.threads[t].s in s.lock && s.lock[s.threads[t].s] == t && s.threads[t].s !in s.held)
  }

  lemma AcquireKeepsLocked(s: State, t: Thread, c: Container)
    requires IsLocked(s) && t in s.threads && s.threads[t].Acquiring?
    ensures IsLocked(Acquired(s, t, s.threads[t].s, c))
  {
  }

  lemma LockingKeepsLocked(s: State, op: Op)
    requires IsLocked(s) && (op.EnterLock? || op.CloseLock?)
    ensures IsLocked(Step(s, op))
  {
  }

  lemma StepKeepsLocked(s: State, op: Op)
    requires IsLocked(s)
    ensures IsLocked(Step(s, op))
  {
    match op
    case AcquireOk(t, c) =>
      if t in s.threads && s.threads[t].Acquiring? {
        AcquireKeepsLocked(s, t, c);
      }
    case EnterLock(_) => LockingKeepsLocked(s, op);
    case CloseLock(_) => LockingKeepsLocked(s, op);
    case _ =>
  }

  lemma FrameKeepsAttributed(s: State, u: State)
    requires IsConserved(s.pool) && IsAttributed(s)
    requires u.pool == s.pool && u.slot == s.slot && u.lost == s.lost
    ensures IsConserved(u.pool) && IsAttributed(u)
  {
  }

  lemma OtherStepsKeepAttributed(s: State, op: Op)
    requires IsConserved(s.pool) && IsAttributed(s) && !op.AcquireOk? && !op.Release? && !op.Prewarm?
    ensures IsConserved(Step(s, op).pool) && IsAttributed(Step(s, op))
  {
    FrameKeepsAttributed(s, Step(s, op));
  }

  lemma PrewarmKeepsAttributed(s: State)
    requires IsConserved(s.pool) && IsAttributed(s)
    ensures IsConserved(Step(s, Prewarm).pool) && IsAttributed(Step(s, Prewarm))
  {
    if |s.pool.idle| + |s.pool.out| < s.pool.max {
      PrewarmConserves(s.pool);
    }
  }

  lemma {:induction false} StepKeepsAttributed(s: State, op: Op)
    requires IsConserved(s.pool) && IsAttributed(s)
    ensures IsConserved(Step(s, op).pool) && IsAttributed(Step(s, op))
  {
    if op.AcquireOk? {
      if op.t in s.threads && s.threads[op.t].Acquiring? && CanTake(s.pool, op.c) {
        AcquireKeepsAttributed(s, op.t, s.threads[op.t].s, op.c);
      }
    } else if op.Release? {
      if op.t in s.threads && s.threads[op.t].Releasing? {
        ReleaseKeepsAttributed(s, op.t, s.threads[op.t].s);
      }
    } else if op.Prewarm? {
      PrewarmKeepsAttributed(s);
    } else {
      OtherStepsKeepAttributed(s, op);
    }
  }

  lemma AcquireKeepsAttributed(s: State, t: Thread, x: Session, c: Container)
    requires IsConserved(s.pool) && IsAttributed(s) && CanTake(s.pool, c)
    ensures IsConserved(Acquired(s, t, x, c).pool) && IsAttributed(Acquired(s, t, x, c))
  {
    TakingConserves(s.pool, c);
    var u := Acquired(s, t, x, c);
    forall d | d in u.pool.out ensures d in u.lost || d in u.slot.Values {
      if d == c {
        assert u.slot[x] == d;
      } else if d in s.slot.Values {
        var y :| y in s.slot && s.slot[y] == d;
        if y != x {
          assert u.slot[y] == d;
        }
      }
    }
  }

  lemma ReleaseKeepsAttributed(s: State, t: Thread, x: Session)
    requires IsConserved(s.pool) && IsAttributed(s)
    ensures IsConserved(Released(s, t, x).pool) && IsAttributed(Released(s, t, x))
  {
    if x in s.slot {
      ReturningConserves(s.pool, s.slot[x]);
      var u := Released(s, t, x);
      forall d | d in u.pool.out ensures d in u.lost || d in u.slot.Values {
        if d in s.slot.Values {
          var y :| y in s.slot && s.slot[y] == d;
          assert y in u.slot && u.slot[y] == d;
        }
      }
    }
  }

  /**
   * Over every schedule of threads and sessions: containers are conserved and bounded, no container
   * is in two slots, and at most one thread per session acquires.
   */
  lemma {:induction false} ContainersAreConserved(s: State, ops: seq<Op>)
    requires IsConserved(s.pool) && IsAttributed(s) && IsLocked(s)
    ensures var r := Run(s, ops); IsConserved(r.pool) && IsAttributed(r) && IsLocked(r)
    decreases |ops|
  {
    if |ops| > 0 {
      StepKeepsAttributed(s, ops[0]);
      StepKeepsLocked(s, ops[0]);
      ContainersAreConserved(Step(s, ops[0]), ops[1..]);
    }
  }

  // -------------------------------------------------------------------------------------------
  // The networked pool
  // -------------------------------------------------------------------------------------------

  /** No container was handed out twice, and none that was handed out can be again. */
  predicate IsSingleUse(s: State) {
    && (forall i, j | 0 <= i < j < |s.served| :: s.served[i].c != s.served[j].c)
    && (forall i | 0 <= i < |s.served| :: s.served[i].c < s.pool.created && s.served[i].c !in s.pool.idle)
    && (forall c | c in s.pool.idle :: c < s.pool.created)
  }

  lemma AcquireKeepsSingleUse(s: State, t: Thread, x: Session, c: Container)
    requires IsSingleUse(s) && CanTake(s.pool, c)
    ensures IsSingleUse(Acquired(s, t, x, c))
  {
  }

  lemma StepKeepsSingleUse(s: State, op: Op)
    requires s.pool.destroysOnRelease && IsSingleUse(s)
    ensures IsSingleUse(Step(s, op)) && Step(s, op).pool.destroysOnRelease
  {
    if op.AcquireOk? && op.t in s.threads && s.threads[op.t].Acquiring? && CanTake(s.pool, op.c) {
      AcquireKeepsSingleUse(s, op.t, s.threads[op.t].s, op.c);
    }
  }

  /** What one session left in a container of the networked pool is never seen by another. */
  lemma {:induction false} NetworkedContainersAreSingleUse(s: State, ops: seq<Op>)
    requires s.pool.destroysOnRelease && IsSingleUse(s)
    ensures IsSingleUse(Run(s, ops))
    decreases |ops|
  {
    if |ops| > 0 {
      StepKeepsSingleUse(s, ops[0]);
      NetworkedContainersAreSingleUse(Step(s, ops[0]), ops[1..]);
    }
  }

  // -------------------------------------------------------------------------------------------
  // One turn
  // -------------------------------------------------------------------------------------------

  predicate IsFirstClose(s: State, op: Op) {
    op.CloseLock? && op.t in s.threads && s.threads[op.t].WantClose? ==> s.threads[op.t].s !in s.closed
  }

  /** release_session takes a session out of the manager before it closes it, so it closes it once. */
  predicate ClosesOnce(s: State, ops: seq<Op>)
    decreases |ops|
  {
    |ops| > 0 ==> IsFirstClose(s, ops[0]) && ClosesOnce(Step(s, ops[0]), ops[1..])
  }

  predicate IsReleasing(s: State, x: Session) {
    exists t :: t in s.threads && s.threads[t] == Releasing(x)
  }

  predicate HasLost(s: State, x: Session) {
    exists c :: c in s.lost && s.lost[c] == x
  }

  /**
   * While nothing acquired for `x` after its close: it is held exactly when it has a container and
   * is not closed, a closed session keeps its container only until its one release, and it was
   * handed one container at most. Once something did, it stays held, and a container of it is out.
   */
  predicate IsPinned(s: State, x: Session) {
    && (forall t, u | t in s.threads && u in s.threads && s.threads[t] == Releasing(x) && s.threads[u] == Releasing(x) :: t == u)
    && (IsReleasing(s, x) ==> x in s.closed)
    && (x in s.late ==> x in s.closed)
    && (x !in s.late ==>
          && !HasLost(s, x)
          && (x in s.held ==> x in s.slot && x !in s.closed)
          && (x in s.slot ==> x in s.held || IsReleasing(s, x))
          && (IsReleasing(s, x) ==> x in s.slot))
    && (x in s.late ==>
          && x in s.held
          && ((x in s.slot && !IsReleasing(s, x)) || HasLost(s, x)))
  }

  lemma SameReleasing(s: State, u: State, x: Session)
    requires forall t :: (t in u.threads && u.threads[t] == Releasing(x)) <==> (t in s.threads && s.threads[t] == Releasing(x))
    ensures IsReleasing(u, x) == IsReleasing(s, x)
  {
    if IsReleasing(s, x) {
      var t :| t in s.threads && s.threads[t] == Releasing(x);
      assert t in u.threads && u.threads[t] == Releasing(x);
    }
  }

  lemma AcquireKeepsPinned(s: State, t: Thread, c: Container, x: Session)
    requires IsLocked(s) && IsAttributed(s) && IsPinned(s, x)
    requires t in s.threads && s.threads[t].Acquiring?
    ensures IsPinned(Acquired(s, t, s.threads[t].s, c), x)
  {
    var y := s.threads[t].s;
    var u := Acquired(s, t, y, c);
    SameReleasing(s, u, x);
    if HasLost(s, x) {
      var d :| d in s.lost && s.lost[d] == x;
      assert d in u.lost && u.lost[d] == x;
    }
    if y == x && x in s.slot {
      assert u.lost[s.slot[x]] == x;
    }
  }

  lemma CloseKeepsPinned(s: State, t: Thread, x: Session)
    requires IsPinned(s, x)
    requires t in s.threads && s.threads[t].WantClose? && s.threads[t].s !in s.closed
    ensures IsPinned(Step(s, CloseLock(t)), x)
  {
    var u := Step(s, CloseLock(t));
    if s.threads[t].s == x && x !in s.lock && x in s.held {
      assert u.threads[t] == Releasing(x);
      assert !IsReleasing(s, x);
    } else {
      SameReleasing(s, u, x);
    }
    assert HasLost(u, x) == HasLost(s, x);
  }

  lemma ReleaseKeepsPinned(s: State, t: Thread, x: Session)
    requires IsPinned(s, x)
    requires t in s.threads && s.threads[t].Releasing?
    ensures IsPinned(Released(s, t, s.threads[t].s), x)
  {
    var u := Released(s, t, s.threads[t].s);
    if s.threads[t].s == x {
      assert IsReleasing(s, x);
      assert !IsReleasing(u, x);
    } else {
      SameReleasing(s, u, x);
    }
    assert HasLost(u, x) == HasLost(s, x);
  }

  lemma FrameKeepsPinned(s: State, u: State, x: Session)
    requires IsPinned(s, x)
    requires u.held == s.held && u.slot == s.slot && u.closed == s.closed && u.late == s.late && u.lost == s.lost
    requires forall t :: (t in u.threads && u.threads[t] == Releasing(x)) <==> (t in s.threads && s.threads[t] == Releasing(x))
    ensures IsPinned(u, x)
  {
    SameReleasing(s, u, x);
    assert HasLost(u, x) == HasLost(s, x);
  }

  lemma OtherStepsKeepPinned(s: State, op: Op, x: Session)
    requires IsPinned(s, x) && !op.AcquireOk? && !op.CloseLock? && !op.Release?
    ensures IsPinned(Step(s, op), x)
  {
    FrameKeepsPinned(s, Step(s, op), x);
  }

  lemma {:induction false} StepKeepsPinned(s: State, op: Op, x: Session)
    requires IsLocked(s) && IsAttributed(s) && IsPinned(s, x) && IsFirstClose(s, op)
    ensures IsPinned(Step(s, op), x)
  {
    match op
    case AcquireOk(t, c) =>
      if t in s.threads && s.threads[t].Acquiring? && CanTake(s.pool, c) {
        AcquireKeepsPinned(s, t, c, x);
      }
    case CloseLock(t) =>
      if t in s.threads && s.threads[t].WantClose? {
        CloseKeepsPinned(s, t, x);
      }
    case Release(t) =>
      if t in s.threads && s.threads[t].Releasing? {
        ReleaseKeepsPinned(s, t, x);
      }
    case _ => OtherStepsKeepPinned(s, op, x);
  }

  lemma {:induction false} SessionsStayPinned(s: State, ops: seq<Op>, x: Session)
    requires IsConserved(s.pool) && IsAttributed(s) && IsLocked(s) && IsPinned(s, x) && ClosesOnce(s, ops)
    ensures IsPinned(Run(s, ops), x)
    decreases |ops|
  {
    if |ops| > 0 {
      StepKeepsPinned(s, ops[0], x);
      StepKeepsAttributed(s, ops[0]);
      StepKeepsLocked(s, ops[0]);
      SessionsStayPinned(Step(s, ops[0]), ops[1..], x);
    }
  }

  /** Every container that is out is pinned to a session whose turn goes on. */
  ghost predicate NothingLeaked(s: State) {
    forall c | c in s.pool.out :: exists x :: x in s.slot && s.slot[x] == c && x !in s.closed
  }

  lemma StartIsGood(max: nat, destroysOnRelease: bool, x: Session)
    ensures var s := Start(max, destroysOnRelease);
            IsConserved(s.pool) && IsAttributed(s) && IsLocked(s) && IsPinned(s, x)
  {
  }

  lemma SettledAccount(s: State)
    requires IsAttributed(s) && s.threads == map[]
    requires forall x :: IsPinned(s, x)
    ensures NothingLeaked(s) <==> s.late == {}
  {
    if s.late == {} {
      forall c | c in s.pool.out ensures exists x :: x in s.slot && s.slot[x] == c && x !in s.closed {
        if c in s.lost {
          assert IsPinned(s, s.lost[c]) && HasLost(s, s.lost[c]);
        }
        var x :| x in s.slot && s.slot[x] == c;
        assert IsPinned(s, x);
      }
    } else {
      var x :| x in s.late;
      assert IsPinned(s, x);
      var c :| c in s.pool.out && ((x in s.slot && s.slot[x] == c) || (c in s.lost && s.lost[c] == x));
      assert forall y | y in s.slot && s.slot[y] == c :: y in s.closed;
    }
  }

  /**
   * When no thread is left in an enter or a close, the containers that are out are exactly those of
   * the turns that go on, if and only if no enter acquired for a session after its close had taken
   * the lock. close() gives the container back outside the lock, and an acquire that timed out goes
   * on, so both happen.
   */
  lemma NothingLeaksIff(max: nat, destroysOnRelease: bool, ops: seq<Op>)
    requires ClosesOnce(Start(max, destroysOnRelease), ops)
    requires Run(Start(max, destroysOnRelease), ops).threads == map[]
    ensures var s := Run(Start(max, destroysOnRelease), ops); NothingLeaked(s) <==> s.late == {}
  {
    var s := Run(Start(max, destroysOnRelease), ops);
    StartIsGood(max, destroysOnRelease, 0);
    ContainersAreConserved(Start(max, destroysOnRelease), ops);
    forall x ensures IsPinned(s, x) {
      StartIsGood(max, destroysOnRelease, x);
      SessionsStayPinned(Start(max, destroysOnRelease), ops, x);
    }
    SettledAccount(s);
  }

  /** No enter takes the lock of a session whose close has taken it. */
  predicate EntersFirst(s: State, ops: seq<Op>)
    decreases |ops|
  {
    |ops| > 0 ==>
      && (ops[0].EnterLock? && ops[0].t in s.threads && s.threads[ops[0].t].WantEnter? ==>
            s.threads[ops[0].t].s !in s.closed)
      && EntersFirst(Step(s, ops[0]), ops[1..])
  }

  predicate AcquiresBeforeClose(s: State) {
    s.late == {} && forall x | x in s.lock :: x !in s.closed
  }

  /** The lock keeps a close out while an enter acquires, so entering first is never late. */
  lemma {:induction false} EnteringFirstIsNeverLate(s: State, ops: seq<Op>)
    requires IsLocked(s) && AcquiresBeforeClose(s) && EntersFirst(s, ops)
    ensures AcquiresBeforeClose(Run(s, ops))
    decreases |ops|
  {
    if |ops| > 0 {
      StepKeepsLocked(s, ops[0]);
      assert AcquiresBeforeClose(Step(s, ops[0]));
      EnteringFirstIsNeverLate(Step(s, ops[0]), ops[1..]);
    }
  }

  /**
   * The rule that makes turns safe: when every enter takes the lock of its session before the close
   * does, then, once every enter and close is done, no container is out but those of the turns that go
   * on, and no closed session has or holds one.
   */
  lemma EnteringFirstLeaksNothing(max: nat, destroysOnRelease: bool, ops: seq<Op>)
    requires ClosesOnce(Start(max, destroysOnRelease), ops) && EntersFirst(Start(max, destroysOnRelease), ops)
    requires Run(Start(max, destroysOnRelease), ops).threads == map[]
    ensures var s := Run(Start(max, destroysOnRelease), ops);
            NothingLeaked(s) && forall x | x in s.closed :: x !in s.slot && x !in s.held
  {
    var s := Run(Start(max, destroysOnRelease), ops);
    EnteringFirstIsNeverLate(Start(max, destroysOnRelease), ops);
    NothingLeaksIff(max, destroysOnRelease, ops);
    forall x | x in s.closed ensures x !in s.slot && x !in s.held {
      StartIsGood(max, destroysOnRelease, x);
      SessionsStayPinned(Start(max, destroysOnRelease), ops, x);
    }
  }

  /** `x` was handed one container at most, and holds it until it is closed. */
  predicate IsServedOnce(s: State, x: Session) {
    && (forall i, j | 0 <= i < |s.served| && 0 <= j < |s.served| && s.served[i].s == x && s.served[j].s == x :: i == j)
    && (forall i | 0 <= i < |s.served| && s.served[i].s == x ::
          x in s.closed || (x in s.held && x in s.slot && s.slot[x] == s.served[i].c))
  }

  lemma AcquireKeepsServedOnce(s: State, t: Thread, c: Container, x: Session)
    requires IsLocked(s) && IsServedOnce(s, x) && t in s.threads && s.threads[t].Acquiring?
    requires x !in Acquired(s, t, s.threads[t].s, c).late
    ensures IsServedOnce(Acquired(s, t, s.threads[t].s, c), x)
  {
  }

  lemma ReleaseKeepsServedOnce(s: State, t: Thread, x: Session)
    requires IsPinned(s, x) && IsServedOnce(s, x) && t in s.threads && s.threads[t].Releasing?
    ensures IsServedOnce(Released(s, t, s.threads[t].s), x)
  {
    if s.threads[t].s == x {
      assert IsReleasing(s, x);
    }
  }

  lemma OtherStepsKeepServedOnce(s: State, op: Op, x: Session)
    requires IsServedOnce(s, x) && !op.AcquireOk? && !op.Release?
    ensures IsServedOnce(Step(s, op), x)
  {
    var u := Step(s, op);
    assert u.served == s.served && u.slot == s.slot && s.closed <= u.closed;
    assert x in u.closed || (x in s.held ==> x in u.held);
  }

  lemma StepKeepsServedOnce(s: State, op: Op, x: Session)
    requires IsLocked(s) && IsPinned(s, x) && x !in Step(s, op).late
    requires IsServedOnce(s, x)
    ensures IsServedOnce(Step(s, op), x)
  {
    match op
    case AcquireOk(t, c) =>
      if t in s.threads && s.threads[t].Acquiring? && CanTake(s.pool, c) {
        AcquireKeepsServedOnce(s, t, c, x);
      }
    case Release(t) =>
      if t in s.threads && s.threads[t].Releasing? {
        ReleaseKeepsServedOnce(s, t, x);
      }
    case _ =>
      OtherStepsKeepServedOnce(s, op, x);
  }

  lemma LateIsForever(s: State, ops: seq<Op>)
    ensures s.late <= Run(s, ops).late
    decreases |ops|
  {
    if |ops| > 0 {
      LateIsForever(Step(s, ops[0]), ops[1..]);
    }
  }

  /** Every call of a turn runs in the same container, so what one call wrote the next one finds. */
  lemma {:induction false} OneContainerPerTurn(s: State, ops: seq<Op>, x: Session)
    requires IsConserved(s.pool) && IsAttributed(s) && IsLocked(s) && IsPinned(s, x) && ClosesOnce(s, ops)
    requires IsServedOnce(s, x) && x !in Run(s, ops).late
    ensures IsServedOnce(Run(s, ops), x)
    decreases |ops|
  {
    if |ops| > 0 {
      LateIsForever(Step(s, ops[0]), ops[1..]);
      StepKeepsPinned(s, ops[0], x);
      StepKeepsAttributed(s, ops[0]);
      StepKeepsLocked(s, ops[0]);
      StepKeepsServedOnce(s, ops[0], x);
      OneContainerPerTurn(Step(s, ops[0]), ops[1..], x);
    }
  }

  // -------------------------------------------------------------------------------------------
  // Late acquires
  // -------------------------------------------------------------------------------------------

  lemma RunTo(s: State, a: Op, t: State, ops: seq<Op>)
    requires Step(s, a) == t && IsFirstClose(s, a)
    ensures Run(s, [a] + ops) == Run(t, ops)
    ensures ClosesOnce(s, [a] + ops) == ClosesOnce(t, ops)
  {
    assert ([a] + ops)[1..] == ops;
  }

  /**
   * An acquire that outlived its bounded wait succeeds after the turn was closed: its container
   * belongs to a session that nothing will close again.
   */
  lemma OrphanKeepsContainer(max: nat, x: Session)
    requires max > 0
    ensures exists ops :: ClosesOnce(Start(max, false), ops) && var s := Run(Start(max, false), ops);
              s.threads == map[] && x in s.closed && x in s.held && x in s.slot && s.slot[x] in s.pool.out
  {
    var s0 := Start(max, false);
    var s1 := s0.(threads := map[0 := WantEnter(x)]);
    var s2 := s1.(threads := s1.threads[1 := WantClose(x)]);
    var s3 := s2.(threads := s2.threads - {1}, closed := {x});
    var s4 := s3.(threads := s3.threads[0 := Acquiring(x)], lock := map[x := 0]);
    var s5 := Acquired(s4, 0, x, 0);
    var ops := [AcquireOk(0, 0)] + [];
    RunTo(s4, AcquireOk(0, 0), s5, []);
    RunTo(s3, EnterLock(0), s4, ops);
    ops := [EnterLock(0)] + ops;
    RunTo(s2, CloseLock(1), s3, ops);
    ops := [CloseLock(1)] + ops;
    RunTo(s1, StartClose(1, x), s2, ops);
    ops := [StartClose(1, x)] + ops;
    RunTo(s0, StartEnter(0, x), s1, ops);
    ops := [StartEnter(0, x)] + ops;
    assert s5.threads == map[];
  }

  /** A turn that goes on: `x` holds container 0 and no thread is under way. */
  function OpenTurn(max: nat, x: Session): State {
    Start(max, false).(
      pool := Pool(max, false, {}, {0}, 1, 0), held := {x}, slot := map[x := 0], served := [Handout(x, 0)])
  }

  predicate HasLostFirst(s: State, x: Session) {
    s.threads == map[] && x in s.held && x !in s.slot && 0 in s.lost && 0 in s.pool.out
  }

  lemma EnterInsideClose(max: nat, x: Session) returns (ops: seq<Op>)
    requires max > 1
    ensures ClosesOnce(OpenTurn(max, x), ops) && HasLostFirst(Run(OpenTurn(max, x), ops), x)
  {
    var open := OpenTurn(max, x);
    var s1 := open.(threads := map[1 := WantClose(x)]);
    var s2 := s1.(threads := map[1 := Releasing(x)], held := {}, closed := {x});
    var s3 := s2.(threads := s2.threads[2 := WantEnter(x)]);
    var s4 := s3.(threads := s3.threads[2 := Acquiring(x)], lock := map[x := 2]);
    var s5 := Acquired(s4, 2, x, 1);
    var s6 := Released(s5, 1, x);
    assert s6.threads == map[];
    RunTo(s5, Release(1), s6, []);
    ops := [Release(1)] + [];
    RunTo(s4, AcquireOk(2, 1), s5, ops);
    ops := [AcquireOk(2, 1)] + ops;
    RunTo(s3, EnterLock(2), s4, ops);
    ops := [EnterLock(2)] + ops;
    RunTo(s2, StartEnter(2, x), s3, ops);
    ops := [StartEnter(2, x)] + ops;
    assert s1.held - {x} == {};
    RunTo(s1, CloseLock(1), s2, ops);
    ops := [CloseLock(1)] + ops;
    RunTo(open, StartClose(1, x), s1, ops);
    ops := [StartClose(1, x)] + ops;
  }

  /**
   * An enter between the two halves of a close acquires a second container over the first, and the
   * close gives that second one back: the first is lost, and the session is held with no container.
   */
  lemma EnterInsideCloseLosesContainer(max: nat, x: Session)
    requires max > 1
    ensures exists ops :: ClosesOnce(Start(max, false), ops) && HasLostFirst(Run(Start(max, false), ops), x)
  {
    var s0 := Start(max, false);
    var s1 := s0.(threads := map[0 := WantEnter(x)]);
    var s2 := s1.(threads := map[0 := Acquiring(x)], lock := map[x := 0]);
    assert Acquired(s2, 0, x, 0) == OpenTurn(max, x);
    var ops := EnterInsideClose(max, x);
    RunTo(s2, AcquireOk(0, 0), OpenTurn(max, x), ops);
    ops := [AcquireOk(0, 0)] + ops;
    RunTo(s1, EnterLock(0), s2, ops);
    ops := [EnterLock(0)] + ops;
    RunTo(s0, StartEnter(0, x), s1, ops);
    ops := [StartEnter(0, x)] + ops;
  }

  // -------------------------------------------------------------------------------------------
  // Nothing waits for ever
  // -------------------------------------------------------------------------------------------

  /** An acquire that fails gives its lock back, ends its enter, and changes nothing else. */
  lemma FailedAcquireGivesBack(s: State, t: Thread)
    requires IsLocked(s) && t in s.threads && s.threads[t].Acquiring?
    ensures var n, x := Step(s, AcquireFail(t)), s.threads[t].s;
            && t !in n.threads && x !in n.lock
            && (forall u | u != t :: (u in n.threads <==> u in s.threads) && (u in s.threads ==> n.threads[u] == s.threads[u]))
            && (forall y | y != x :: (y in n.lock <==> y in s.lock) && (y in s.lock ==> n.lock[y] == s.lock[y]))
            && n.pool == s.pool && n.held == s.held && n.slot == s.slot && n.closed == s.closed
            && n.late == s.late && n.lost == s.lost && n.served == s.served
  {
  }

  /** A step of a thread that is under way. */
  predicate GoesOn(op: Op) {
    !op.StartEnter? && !op.StartClose? && !op.Prewarm? && !op.AcquireOk?
  }

  ghost predicate LeadsTo(s: State, n: State) {
    exists ops: seq<Op> :: (forall op | op in ops :: GoesOn(op)) && Run(s, ops) == n
  }

  lemma StepLeadsTo(s: State, op: Op)
    requires GoesOn(op)
    ensures LeadsTo(s, Step(s, op))
  {
    assert [op][1..] == [] && Run(s, [op]) == Step(s, op);
  }

  lemma {:induction false} RunConcat(s: State, a: seq<Op>, b: seq<Op>)
    ensures Run(s, a + b) == Run(Run(s, a), b)
    decreases |a|
  {
    if a == [] {
      assert a + b == b;
    } else {
      assert (a + b)[0] == a[0] && (a + b)[1..] == a[1..] + b;
      RunConcat(Step(s, a[0]), a[1..], b);
    }
  }

  lemma LeadsOn(a: State, b: State, c: State)
    requires LeadsTo(a, b) && LeadsTo(b, c)
    ensures LeadsTo(a, c)
  {
    var there: seq<Op> :| (forall op | op in there :: GoesOn(op)) && Run(a, there) == b;
    var onward: seq<Op> :| (forall op | op in onward :: GoesOn(op)) && Run(b, onward) == c;
    RunConcat(a, there, onward);
  }

  /** One thread comes to its end, an acquire before anything that waits for a lock. */
  lemma OneThreadEnds(s: State) returns (n: State, t: Thread)
    requires IsLocked(s) && s.threads != map[]
    ensures LeadsTo(s, n) && IsLocked(n) && t in s.threads && n.threads == s.threads - {t}
  {
    if u :| u in s.threads && s.threads[u].Acquiring? {
      t := u;
      n := Step(s, AcquireFail(t));
      StepLeadsTo(s, AcquireFail(t));
      StepKeepsLocked(s, AcquireFail(t));
    } else {
      t :| t in s.threads;
      n := FreeThreadEnds(s, t);
    }
  }

  /** While nothing acquires, no session is locked. */
  lemma FreeThreadEnds(s: State, t: Thread) returns (n: State)
    requires IsLocked(s) && t in s.threads && forall u | u in s.threads :: !s.threads[u].Acquiring?
    ensures LeadsTo(s, n) && IsLocked(n) && n.threads == s.threads - {t}
  {
    assert s.threads[t].s !in s.lock;
    var first := if s.threads[t].WantEnter? then EnterLock(t) else if s.threads[t].WantClose? then CloseLock(t) else Release(t);
    var next := if s.threads[t].WantEnter? then AcquireFail(t) else Release(t);
    var m := Step(s, first);
    StepLeadsTo(s, first);
    StepKeepsLocked(s, first);
    n := Step(m, next);
    StepLeadsTo(m, next);
    StepKeepsLocked(m, next);
    LeadsOn(s, m, n);
  }

  /**
   * From every state, with no further container given out and no further call begun, every enter and
   * every close that is under way can come to its end, and leaves no session locked.
   */
  lemma {:induction false} EveryThreadCanEnd(s: State) returns (n: State)
    requires IsLocked(s)
    ensures LeadsTo(s, n) && n.threads == map[] && n.lock == map[]
    decreases |s.threads|
  {
    if s.threads == map[] {
      n := s;
      assert Run(s, []) == s;
    } else {
      var m, t := OneThreadEnds(s);
      assert m.threads.Keys == s.threads.Keys - {t};
      n := EveryThreadCanEnd(m);
      LeadsOn(s, m, n);
    }
  }
}
