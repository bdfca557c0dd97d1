/**
 * runner/mcp_sessions.py and the call closure of runner/mcp_tools.py: one MCP session per server
 * and run, one re-handshake when it goes stale, and one retry of the call that noticed.
 *
 * A re-handshake suspends twice between checking its budget and spending it: while the stale task is
 * torn down, and while the new task connects. Closing suspends as well. So all of them are several
 * steps here, and any other step may come in between.
 */
module McpSessions {
  import opened Wrappers

  type ServerId = nat

  /** A session, the task that holds it and that task's two events share their number: its place in the log of handshakes. */
  type SessionId = nat

  /** The task of a session. It takes up the events its server has when it takes its first step. */
  datatype Life = Created | Shaking(event: SessionId) | Live(event: SessionId) | Over

  /** A re-handshake in its first wait, for the task it found. */
  datatype Teardown = Teardown(server: ServerId, stale: Option<SessionId>)

  /** A re-handshake in its second wait, for the ready event it made. */
  datatype Opening = Opening(server: ServerId, id: SessionId)

  /** Closing waits for the tasks it found. */
  datatype Phase = Running | Closing(tasks: set<SessionId>) | Closed

  /**
   * `tasks` and `events` name a server's task and its two events; `ready` holds the ready events that
   * are set. What sets a close event also waits for the task, so close events need no such set.
   */
  datatype Registry = Registry(
    configs: set<ServerId>,
    sessions: map<ServerId, SessionId>,
    tasks: map<ServerId, SessionId>,
    events: map<ServerId, SessionId>,
    ready: set<SessionId>,
    used: set<ServerId>,
    teardown: seq<Teardown>,
    reopening: seq<Opening>,
    phase: Phase,
    handshakes: seq<ServerId>,
    life: seq<Life>)

  datatype Op =
    | Begin(server: ServerId)
    | Reopen(index: nat)
    | Resume(index: nat)
    | Start(id: SessionId)
    | Settle(id: SessionId, answers: bool)
    | End(id: SessionId)
    | Shut
    | Drop

  function Count(log: seq<ServerId>, s: ServerId): nat {
    multiset(log)[s]
  }

  function Without<T>(xs: seq<T>, i: nat): seq<T>
    requires i < |xs|
  {
    xs[..i] + xs[i + 1..]
  }

  function Get(m: map<ServerId, SessionId>, s: ServerId): Option<SessionId> {
    if s in m then Some(m[s]) else None
  }

  predicate Admits(r: Registry, s: ServerId) {
    r.phase.Running? && s in r.configs && s !in r.used
  }

  predicate Known(r: Registry, id: SessionId) {
    id < |r.life| && id < |r.handshakes|
  }

  predicate IsTracked(r: Registry, id: SessionId)
    requires Known(r, id)
  {
    Get(r.tasks, r.handshakes[id]) == Some(id)
  }

  predicate IsOver(r: Registry, id: SessionId) {
    id < |r.life| && r.life[id].Over?
  }

  /**
   * A task ends when told to, when cancelled, or when its transport fails. It removes whatever its
   * server has by then, be it its own or another task's.
   */
  function Exited(r: Registry, id: SessionId): Registry
    requires Known(r, id) && (r.life[id].Shaking? || r.life[id].Live?)
  {
    var s := r.handshakes[id];
    r.(life := r.life[id := Over], ready := r.ready + {r.life[id].event}, sessions := r.sessions - {s}, tasks := r.tasks - {s})
  }

  function Begun(r: Registry, s: ServerId): Registry {
    r.(teardown := r.teardown + [Teardown(s, Get(r.tasks, s))])
  }

  /** The new session's task is made. The registry is not looked at again to see whether it closed. */
  function Reopened(r: Registry, i: nat): Registry
    requires i < |r.teardown|
  {
    var s, id := r.teardown[i].server, |r.handshakes|;
    r.(teardown := Without(r.teardown, i),
       reopening := r.reopening + [Opening(s, id)],
       sessions := r.sessions - {s},
       tasks := r.tasks[s := id],
       events := r.events[s := id],
       handshakes := r.handshakes + [s],
       life := r.life + [Created])
  }

  function Resumed(r: Registry, i: nat): Registry
    requires i < |r.reopening|
  {
    r.(reopening := Without(r.reopening, i), used := r.used + {r.reopening[i].server})
  }

  function Started(r: Registry, id: SessionId): Registry
    requires Known(r, id)
  {
    var s := r.handshakes[id];
    r.(life := r.life[id := if s in r.events then Shaking(r.events[s]) else Over])
  }

  function Settled(r: Registry, id: SessionId, answers: bool): Registry
    requires Known(r, id) && r.life[id].Shaking?
  {
    if answers then
      r.(life := r.life[id := Live(r.life[id].event)], ready := r.ready + {r.life[id].event},
         sessions := r.sessions[r.handshakes[id] := id])
    else Exited(r, id)
  }

  function Dropped(r: Registry): Registry {
    r.(phase := Closed, sessions := map[], tasks := map[], events := map[])
  }

  function Shutting(r: Registry): Registry {
    if r.tasks == map[] then Dropped(r) else r.(phase := Closing(r.tasks.Values))
  }

  predicate IsEnabled(r: Registry, op: Op) {
    match op
    case Begin(s) => Admits(r, s)
    case Reopen(i) => i < |r.teardown| && (r.teardown[i].stale.Some? ==> IsOver(r, r.teardown[i].stale.value))
    case Resume(i) => i < |r.reopening| && r.reopening[i].id in r.ready
    case Start(id) => Known(r, id) && r.life[id].Created?
    case Settle(id, answers) => Known(r, id) && r.life[id].Shaking?
    case End(id) => Known(r, id) && (r.life[id].Shaking? || r.life[id].Live?)
    case Shut => r.phase.Running?
    case Drop => r.phase.Closing? && forall id | id in r.phase.tasks :: IsOver(r, id)
  }

  function Step(r: Registry, op: Op): Registry {
    if !IsEnabled(r, op) then r
    else
      match op
      case Begin(s) => Begun(r, s)
      case Reopen(i) => Reopened(r, i)
      case Resume(i) => Resumed(r, i)
      case Start(id) => Started(r, id)
      case Settle(id, answers) => Settled(r, id, answers)
      case End(id) => Exited(r, id)
      case Shut => Shutting(r)
      case Drop => Dropped(r)
  }

  function Run(r: Registry, ops: seq<Op>): Registry
    decreases |ops|
  {
    if |ops| == 0 then r else Run(Step(r, ops[0]), ops[1..])
  }

  ghost predicate Reaches(r: Registry, n: Registry) {
    exists ops :: Run(r, ops) == n
  }

  lemma ReachStep(r: Registry, op: Op)
    ensures Reaches(r, Step(r, op))
  {
    assert [op][1..] == [] && [op][0] == op;
    assert Run(r, [op]) == Step(r, op);
  }

  lemma ReachSelf(r: Registry)
    ensures Reaches(r, r)
  {
    assert Run(r, []) == r;
  }

  lemma {:induction false} RunConcat(r: Registry, a: seq<Op>, b: seq<Op>)
    ensures Run(r, a + b) == Run(Run(r, a), b)
    decreases |a|
  {
    if a == [] {
      assert a + b == b;
    } else {
      assert (a + b)[0] == a[0] && (a + b)[1..] == a[1..] + b;
      RunConcat(Step(r, a[0]), a[1..], b);
    }
  }

  lemma ReachTrans(a: Registry, b: Registry, c: Registry)
    requires Reaches(a, b) && Reaches(b, c)
    ensures Reaches(a, c)
  {
    var there :| Run(a, there) == b;
    var onward :| Run(b, onward) == c;
    RunConcat(a, there, onward);
  }

  /** What every reachable registry keeps. */
  ghost predicate Valid(r: Registry) {
    && |r.life| == |r.handshakes|
    && (forall s | s in r.tasks :: r.tasks[s] < |r.life| && r.handshakes[r.tasks[s]] == s)
    && (forall t | t in r.teardown :: t.stale.Some? ==> t.stale.value < |r.life|)
    && (r.phase.Closing? ==> forall id | id in r.phase.tasks :: id < |r.life|)
    && (!r.phase.Closed? ==> forall id: SessionId | Known(r, id) :: r.handshakes[id] in r.events)
    && (forall id: SessionId | Known(r, id) :: r.life[id].Live? ==> r.life[id].event in r.ready)
  }

  lemma BegunIsValid(r: Registry, s: ServerId)
    requires Valid(r)
    ensures Valid(Begun(r, s))
  {
  }

  lemma ReopenedIsValid(r: Registry, i: nat)
    requires Valid(r) && i < |r.teardown|
    ensures Valid(Reopened(r, i))
  {
    forall t | t in Without(r.teardown, i) ensures t in r.teardown {
    }
  }

  lemma SettledIsValid(r: Registry, id: SessionId, answers: bool)
    requires Valid(r) && Known(r, id) && r.life[id].Shaking?
    ensures Valid(Settled(r, id, answers))
  {
  }

  lemma StepStaysValid(r: Registry, op: Op)
    requires Valid(r)
    ensures Valid(Step(r, op))
  {
    if IsEnabled(r, op) {
      match op
      case Begin(s) => BegunIsValid(r, s);
      case Reopen(i) => ReopenedIsValid(r, i);
      case Settle(id, answers) => SettledIsValid(r, id, answers);
      case _ =>
    }
  }

  lemma {:induction false} StaysValid(r: Registry, ops: seq<Op>)
    requires Valid(r)
    ensures Valid(Run(r, ops))
    decreases |ops|
  {
    if |ops| > 0 {
      StepStaysValid(r, ops[0]);
      StaysValid(Step(r, ops[0]), ops[1..]);
    }
  }

  // -------------------------------------------------------------------------------------------
  // Opening
  // -------------------------------------------------------------------------------------------

  /** The wanted servers that are registered, each once, in order. */
  function Resolve(wanted: seq<ServerId>, registered: set<ServerId>, done: set<ServerId>): seq<ServerId>
    decreases |wanted|
  {
    if |wanted| == 0 then []
    else if wanted[0] in registered && wanted[0] !in done then
      [wanted[0]] + Resolve(wanted[1..], registered, done + {wanted[0]})
    else Resolve(wanted[1..], registered, done)
  }

  /** One task is made and settles: its session is stored if the handshake succeeds, and else it ends. */
  function Handshake(r: Registry, s: ServerId, answers: bool): Registry {
    var id := |r.handshakes|;
    r.(sessions := if answers then r.sessions[s := id] else r.sessions - {s},
       tasks := if answers then r.tasks[s := id] else r.tasks - {s},
       events := r.events[s := id],
       ready := r.ready + {id},
       handshakes := r.handshakes + [s],
       life := r.life + [if answers then Live(id) else Over])
  }

  function OpenAll(r: Registry, servers: seq<ServerId>, answering: set<ServerId>): Registry
    decreases |servers|
  {
    if |servers| == 0 then r
    else
      var s := servers[0];
      OpenAll(Handshake(r, s, s in answering).(configs := r.configs + {s}), servers[1..], answering)
  }

  function Fresh(): Registry {
    Registry({}, map[], map[], map[], {}, {}, [], [], Running, [], [])
  }

  lemma {:induction false} ResolveNamesEachOnce(wanted: seq<ServerId>, registered: set<ServerId>, done: set<ServerId>)
    ensures var rs := Resolve(wanted, registered, done);
            && (forall s :: s in rs <==> s in wanted && s in registered && s !in done)
            && (forall s :: Count(rs, s) <= 1)
    decreases |wanted|
  {
    if |wanted| > 0 {
      var s := wanted[0];
      assert wanted == [s] + wanted[1..];
      if s in registered && s !in done {
        ResolveNamesEachOnce(wanted[1..], registered, done + {s});
        var rest := Resolve(wanted[1..], registered, done + {s});
        assert s !in rest && s !in multiset(rest);
        assert multiset([s] + rest) == multiset{s} + multiset(rest);
        forall t ensures Count([s] + rest, t) <= 1 {
          assert Count(rest, t) <= 1;
        }
      } else {
        ResolveNamesEachOnce(wanted[1..], registered, done);
      }
    }
  }

  lemma {:induction false} OpenAllHandshakes(r: Registry, servers: seq<ServerId>, answering: set<ServerId>)
    requires forall s :: Count(servers, s) <= 1
    ensures var o := OpenAll(r, servers, answering);
            && o.handshakes == r.handshakes + servers
            && o.used == r.used && o.teardown == r.teardown && o.reopening == r.reopening && o.phase == r.phase
            && o.configs == r.configs + (set s | s in servers)
            && (forall s | s in servers :: s in o.sessions <==> s in answering)
            && (forall s | s !in servers :: s in o.sessions <==> s in r.sessions)
    decreases |servers|
  {
    if |servers| > 0 {
      var s := servers[0];
      assert servers == [s] + servers[1..];
      assert multiset(servers) == multiset{s} + multiset(servers[1..]);
      forall t ensures Count(servers[1..], t) <= Count(servers, t) - (if t == s then 1 else 0) {}
      assert Count(servers, s) <= 1 && s !in multiset(servers[1..]);
      OpenAllHandshakes(Handshake(r, s, s in answering).(configs := r.configs + {s}), servers[1..], answering);
    }
  }

  /** No re-handshake is under way, and no task is still connecting. */
  ghost predicate IsIdle(r: Registry) {
    && r.teardown == [] && r.reopening == [] && !r.phase.Closing?
    && forall id: SessionId | Known(r, id) :: r.life[id].Live? || r.life[id].Over?
  }

  lemma HandshakeStaysIdle(r: Registry, s: ServerId, answers: bool)
    requires Valid(r) && IsIdle(r)
    ensures Valid(Handshake(r, s, answers)) && IsIdle(Handshake(r, s, answers))
  {
  }

  lemma {:induction false} OpenAllIsIdle(r: Registry, servers: seq<ServerId>, answering: set<ServerId>)
    requires Valid(r) && IsIdle(r)
    ensures Valid(OpenAll(r, servers, answering)) && IsIdle(OpenAll(r, servers, answering))
    decreases |servers|
  {
    if |servers| > 0 {
      var s := servers[0];
      HandshakeStaysIdle(r, s, s in answering);
      OpenAllIsIdle(Handshake(r, s, s in answering).(configs := r.configs + {s}), servers[1..], answering);
    }
  }

  /** Opening shakes hands with each wanted and registered server once; those that answer get a session. */
  lemma OpenIsOneHandshakeEach(wanted: seq<ServerId>, registered: set<ServerId>, answering: set<ServerId>)
    ensures var o := OpenAll(Fresh(), Resolve(wanted, registered, {}), answering);
            && (forall s :: Count(o.handshakes, s) <= 1)
            && (forall s :: s in o.configs <==> s in wanted && s in registered)
            && (forall s :: s in o.sessions <==> s in o.configs && s in answering)
            && o.used == {} && Valid(o) && IsIdle(o) && o.phase.Running?
  {
    var servers := Resolve(wanted, registered, {});
    ResolveNamesEachOnce(wanted, registered, {});
    OpenAllHandshakes(Fresh(), servers, answering);
    OpenAllIsIdle(Fresh(), servers, answering);
    assert [] + servers == servers;
  }

  // -------------------------------------------------------------------------------------------
  // The handshake budget
  // -------------------------------------------------------------------------------------------

  function Servers(reopening: seq<Opening>): seq<ServerId> {
    seq(|reopening|, i requires 0 <= i < |reopening| => reopening[i].server)
  }

  function TornDown(teardown: seq<Teardown>): seq<ServerId> {
    seq(|teardown|, i requires 0 <= i < |teardown| => teardown[i].server)
  }

  /** How many re-handshakes of `s` are under way. */
  function UnderWay(r: Registry, s: ServerId): nat {
    Count(TornDown(r.teardown), s) + Count(Servers(r.reopening), s)
  }

  /** The handshakes with `s` made and still to be made by the re-handshakes begun. */
  function Bound(r: Registry, s: ServerId): nat {
    Count(r.handshakes, s) + Count(TornDown(r.teardown), s)
  }

  /** At most `m` re-handshakes of `s` are ever under way together. */
  ghost predicate OverlapAtMost(r: Registry, ops: seq<Op>, s: ServerId, m: nat)
    decreases |ops|
  {
    UnderWay(r, s) <= m && (|ops| > 0 ==> OverlapAtMost(Step(r, ops[0]), ops[1..], s, m))
  }

  ghost predicate WithinBudget(r: Registry, s: ServerId, m: nat) {
    Bound(r, s) <= 1 + if s in r.used then m else UnderWay(r, s)
  }

  lemma RemoveCount(log: seq<ServerId>, i: nat, s: ServerId)
    requires i < |log|
    ensures Count(Without(log, i), s) == Count(log, s) - (if log[i] == s then 1 else 0)
  {
    assert log == log[..i] + [log[i]] + log[i + 1..];
    assert multiset(log) == multiset(log[..i]) + multiset{log[i]} + multiset(log[i + 1..]);
  }

  lemma AddCount(log: seq<ServerId>, added: ServerId, s: ServerId)
    ensures Count(log + [added], s) == Count(log, s) + (if added == s then 1 else 0)
  {
  }

  lemma ReopenCounts(r: Registry, i: nat, s: ServerId)
    requires i < |r.teardown|
    ensures Bound(Reopened(r, i), s) == Bound(r, s) && UnderWay(Reopened(r, i), s) == UnderWay(r, s)
  {
    var b := r.teardown[i].server;
    RemoveCount(TornDown(r.teardown), i, s);
    assert TornDown(Without(r.teardown, i)) == Without(TornDown(r.teardown), i);
    AddCount(r.handshakes, b, s);
    AddCount(Servers(r.reopening), b, s);
    assert Servers(r.reopening + [Opening(b, |r.handshakes|)]) == Servers(r.reopening) + [b];
  }

  lemma ResumeCounts(r: Registry, i: nat, s: ServerId)
    requires i < |r.reopening|
    ensures var n := Resumed(r, i);
            && Bound(n, s) == Bound(r, s) && UnderWay(n, s) <= UnderWay(r, s)
            && (UnderWay(n, s) < UnderWay(r, s) ==> s in n.used)
  {
    RemoveCount(Servers(r.reopening), i, s);
    assert Servers(Without(r.reopening, i)) == Without(Servers(r.reopening), i);
  }

  lemma BeginCounts(r: Registry, b: ServerId, s: ServerId)
    ensures var n := Begun(r, b);
            && Bound(n, s) == Bound(r, s) + (if b == s then 1 else 0)
            && UnderWay(n, s) == UnderWay(r, s) + (if b == s then 1 else 0)
  {
    AddCount(TornDown(r.teardown), b, s);
    assert TornDown(Begun(r, b).teardown) == TornDown(r.teardown) + [b];
  }

  /** What one step does to the two counts. */
  lemma {:induction false} StepCounts(r: Registry, op: Op, s: ServerId)
    ensures var n := Step(r, op);
            && (op == Begin(s) && Admits(r, s) ==> Bound(n, s) == Bound(r, s) + 1 && UnderWay(n, s) == UnderWay(r, s) + 1)
            && (!(op == Begin(s) && Admits(r, s)) ==> Bound(n, s) == Bound(r, s) && UnderWay(n, s) <= UnderWay(r, s))
            && (UnderWay(n, s) < UnderWay(r, s) ==> s in n.used)
            && (s in r.used ==> s in n.used)
  {
    if IsEnabled(r, op) {
      match op
      case Begin(b) => BeginCounts(r, b, s);
      case Reopen(i) => ReopenCounts(r, i, s);
      case Resume(i) => ResumeCounts(r, i, s);
      case _ =>
    }
  }

  /**
   * Over every interleaving, a server sees its opening handshake and as many more as there were
   * re-handshakes of it under way together: two in all when calls do not overlap.
   */
  lemma {:induction false} HandshakeBudget(r: Registry, ops: seq<Op>, s: ServerId, m: nat)
    requires WithinBudget(r, s, m) && OverlapAtMost(r, ops, s, m)
    ensures Count(Run(r, ops).handshakes, s) <= Bound(Run(r, ops), s) <= 1 + m
    decreases |ops|
  {
    if |ops| > 0 {
      StepCounts(r, ops[0], s);
      HandshakeBudget(Step(r, ops[0]), ops[1..], s, m);
    }
  }

  /** What was begun is never taken back. */
  lemma {:induction false} BoundNeverFalls(r: Registry, ops: seq<Op>, s: ServerId)
    ensures Bound(r, s) <= Bound(Run(r, ops), s)
    decreases |ops|
  {
    if |ops| > 0 {
      StepCounts(r, ops[0], s);
      BoundNeverFalls(Step(r, ops[0]), ops[1..], s);
    }
  }

  lemma {:induction false} OverlapIsBound(r: Registry, ops: seq<Op>, s: ServerId, m: nat)
    requires UnderWay(r, s) + 1 <= Bound(r, s) && Bound(Run(r, ops), s) <= 1 + m
    ensures OverlapAtMost(r, ops, s, m)
    decreases |ops|
  {
    BoundNeverFalls(r, ops, s);
    if |ops| > 0 {
      StepCounts(r, ops[0], s);
      OverlapIsBound(Step(r, ops[0]), ops[1..], s, m);
    }
  }

  /**
   * The promise of one re-handshake, exactly: a server that was opened sees at most `1 + m`
   * handshakes, those still to come from a teardown included, if and only if no more than `m`
   * re-handshakes of it are ever under way together. With `m` one: two handshakes at most if and only
   * if no two overlap.
   */
  lemma HandshakeBudgetIff(r: Registry, ops: seq<Op>, s: ServerId, m: nat)
    requires Count(r.handshakes, s) == 1 && s !in r.used && UnderWay(r, s) == 0
    ensures Bound(Run(r, ops), s) <= 1 + m <==> OverlapAtMost(r, ops, s, m)
    ensures Count(TornDown(Run(r, ops).teardown), s) == 0 ==>
              (Count(Run(r, ops).handshakes, s) <= 1 + m <==> OverlapAtMost(r, ops, s, m))
  {
    if Bound(Run(r, ops), s) <= 1 + m {
      OverlapIsBound(r, ops, s, m);
    } else if OverlapAtMost(r, ops, s, m) {
      HandshakeBudget(r, ops, s, m);
    }
  }

  lemma RunTo(r: Registry, a: Op, n: Registry, ops: seq<Op>, s: ServerId, m: nat)
    requires Step(r, a) == n
    ensures Run(r, [a] + ops) == Run(n, ops)
    ensures UnderWay(r, s) <= m && OverlapAtMost(n, ops, s, m) ==> OverlapAtMost(r, [a] + ops, s, m)
  {
    assert ([a] + ops)[1..] == ops;
  }

  /** A registry with one server, which answered. */
  function OpenedOne(s: ServerId): Registry {
    Registry({s}, map[s := 0], map[s := 0], map[s := 0], {0}, {}, [], [], Running, [s], [Live(0)])
  }

  lemma OpenedOneIsReached(s: ServerId)
    ensures OpenAll(Fresh(), [s], {s}) == OpenedOne(s)
  {
    var start := Handshake(Fresh(), s, true).(configs := {} + {s});
    assert [s][1..] == [] && [s][0] == s;
    assert OpenAll(start, [], {s}) == start && start == OpenedOne(s);
  }

  /** Two re-handshakes that waited for the same stale task, each having made a new one. */
  function TwoReopened(s: ServerId): Registry {
    OpenedOne(s).(sessions := map[], tasks := map[s := 2], events := map[s := 2],
                  reopening := [Opening(s, 1), Opening(s, 2)], handshakes := [s, s, s], life := [Over, Created, Created])
  }

  /** The registries in between: two calls have begun, the stale task ends, and one call has gone on. */
  function TwoBegun(s: ServerId): Registry {
    OpenedOne(s).(teardown := [Teardown(s, Some(0)), Teardown(s, Some(0))])
  }

  function StaleEnded(s: ServerId): Registry {
    TwoBegun(s).(sessions := map[], tasks := map[], life := [Over])
  }

  function OneReopened(s: ServerId): Registry {
    StaleEnded(s).(teardown := [Teardown(s, Some(0))], reopening := [Opening(s, 1)], tasks := map[s := 1],
                   events := map[s := 1], handshakes := [s, s], life := [Over, Created])
  }

  lemma TwoBegin(s: ServerId)
    ensures Step(Step(OpenedOne(s), Begin(s)), Begin(s)) == TwoBegun(s)
  {
    var t := Teardown(s, Some(0));
    assert Step(OpenedOne(s), Begin(s)) == OpenedOne(s).(teardown := [t]);
  }

  lemma StaleEnds(s: ServerId)
    ensures Step(TwoBegun(s), End(0)) == StaleEnded(s)
  {
    var r := TwoBegun(s);
    assert r.life[0 := Over] == [Over] && r.ready + {0} == r.ready;
    assert r.sessions - {s} == map[] && r.tasks - {s} == map[];
  }

  lemma BothReopen(s: ServerId)
    ensures Step(StaleEnded(s), Reopen(0)) == OneReopened(s)
    ensures Step(OneReopened(s), Reopen(0)) == TwoReopened(s)
  {
    var t := Teardown(s, Some(0));
    assert Without([t, t], 0) == [t] && Without([t], 0) == [];
  }

  lemma OverlapOfTwo(s: ServerId)
    ensures UnderWay(OpenedOne(s), s) == 0 && UnderWay(Step(OpenedOne(s), Begin(s)), s) == 1
    ensures UnderWay(TwoBegun(s), s) == UnderWay(StaleEnded(s), s) == 2
    ensures UnderWay(OneReopened(s), s) == UnderWay(TwoReopened(s), s) == 2
  {
    BeginCounts(OpenedOne(s), s, s);
    BeginCounts(Step(OpenedOne(s), Begin(s)), s, s);
    TwoBegin(s);
    ReopenCounts(StaleEnded(s), 0, s);
    ReopenCounts(OneReopened(s), 0, s);
    BothReopen(s);
  }

  /** Two calls that notice the stale session together, from a registry with that session open. */
  lemma TwoOverlap(s: ServerId) returns (ops: seq<Op>)
    ensures OverlapAtMost(OpenedOne(s), ops, s, 2) && Run(OpenedOne(s), ops) == TwoReopened(s)
  {
    TwoBegin(s);
    StaleEnds(s);
    BothReopen(s);
    OverlapOfTwo(s);
    ops := [];
    RunTo(OneReopened(s), Reopen(0), TwoReopened(s), ops, s, 2);
    ops := [Reopen(0)] + ops;
    RunTo(StaleEnded(s), Reopen(0), OneReopened(s), ops, s, 2);
    ops := [Reopen(0)] + ops;
    RunTo(TwoBegun(s), End(0), StaleEnded(s), ops, s, 2);
    ops := [End(0)] + ops;
    RunTo(Step(OpenedOne(s), Begin(s)), Begin(s), TwoBegun(s), ops, s, 2);
    ops := [Begin(s)] + ops;
    RunTo(OpenedOne(s), Begin(s), Step(OpenedOne(s), Begin(s)), ops, s, 2);
    ops := [Begin(s)] + ops;
  }

  /** The bound is reached: two calls that notice the stale session together make three handshakes. */
  lemma OverlappingCallsExceedTwo(s: ServerId)
    ensures exists ops :: var r := OpenAll(Fresh(), [s], {s});
              OverlapAtMost(r, ops, s, 2) && Count(Run(r, ops).handshakes, s) == 3
  {
    OpenedOneIsReached(s);
    var ops := TwoOverlap(s);
  }

  // -------------------------------------------------------------------------------------------
  // Waiting for a new session
  // -------------------------------------------------------------------------------------------

  /** Some task is going to set the ready event `e`. */
  ghost predicate IsExpected(r: Registry, e: SessionId) {
    exists id: SessionId | Known(r, id) :: WillSet(r, id, e)
  }

  predicate WillSet(r: Registry, id: SessionId, e: SessionId)
    requires Known(r, id)
  {
    r.life[id] == Shaking(e) || (r.life[id].Created? && Get(r.events, r.handshakes[id]) == Some(e))
  }

  lemma {:induction false} UnexpectedStaysUnset(r: Registry, ops: seq<Op>, e: SessionId)
    requires Valid(r) && e < |r.handshakes| && e !in r.ready && !IsExpected(r, e)
    ensures e !in Run(r, ops).ready
    decreases |ops|
  {
    if |ops| > 0 {
      var op := ops[0];
      StepStaysUnexpected(r, op, e);
      StepStaysValid(r, op);
      UnexpectedStaysUnset(Step(r, op), ops[1..], e);
    }
  }

  lemma StepStaysUnexpected(r: Registry, op: Op, e: SessionId)
    requires Valid(r) && e < |r.handshakes| && e !in r.ready && !IsExpected(r, e)
    ensures e < |Step(r, op).handshakes| && e !in Step(r, op).ready && !IsExpected(Step(r, op), e)
  {
    var n := Step(r, op);
    if IsEnabled(r, op) {
      forall id: SessionId | Known(n, id) ensures !WillSet(n, id, e) {
        assert id < |r.life| ==> !WillSet(r, id, e);
      }
    }
  }

  /** The ready event `e` is set after some further steps. */
  ghost predicate CanBeSet(r: Registry, e: SessionId) {
    exists ops :: e in Run(r, ops).ready
  }

  lemma ExpectedCanBeSet(r: Registry, e: SessionId)
    requires IsExpected(r, e)
    ensures CanBeSet(r, e)
  {
    var id: SessionId :| Known(r, id) && WillSet(r, id, e);
    var begun := Step(r, Start(id));
    var n := Step(begun, Settle(id, true));
    ReachStep(r, Start(id));
    ReachStep(begun, Settle(id, true));
    ReachTrans(r, begun, n);
    var ops :| Run(r, ops) == n;
  }

  /**
   * A re-handshake waits for the ready event it made, and its task sets the event its server has when
   * the task takes its first step. The wait can end exactly when the event is set or some task holds
   * it or will take it up.
   */
  lemma WaitEndsIff(r: Registry, e: SessionId)
    requires Valid(r) && e < |r.handshakes|
    ensures CanBeSet(r, e) <==> e in r.ready || IsExpected(r, e)
  {
    if e in r.ready {
      assert Run(r, []) == r;
    } else if IsExpected(r, e) {
      ExpectedCanBeSet(r, e);
    } else {
      forall ops ensures e !in Run(r, ops).ready {
        UnexpectedStaysUnset(r, ops, e);
      }
    }
  }

  /**
   * Two calls wait for the same stale task and go on together: the second replaces the events before
   * the first one's task has taken a step, and the first call never comes back.
   */
  lemma OverlappedCallHangs(s: ServerId)
    ensures exists ops :: var r := Run(OpenAll(Fresh(), [s], {s}), ops); Opening(s, 1) in r.reopening && !CanBeSet(r, 1)
  {
    OpenedOneIsReached(s);
    var ops := TwoOverlap(s);
    FirstIsForgotten(s);
  }

  lemma FirstIsForgotten(s: ServerId)
    ensures Valid(TwoReopened(s)) && Opening(s, 1) in TwoReopened(s).reopening && !CanBeSet(TwoReopened(s), 1)
  {
    var r := TwoReopened(s);
    assert Valid(r) && r.reopening[0] == Opening(s, 1);
    assert !IsExpected(r, 1);
    WaitEndsIff(r, 1);
  }

  /** Every call that waits for `s` is served by the task it made. */
  ghost predicate Served(r: Registry, s: ServerId) {
    forall o | o in r.reopening && o.server == s ::
      && Known(r, o.id) && r.handshakes[o.id] == s
      && (o.id in r.ready || r.life[o.id] == Shaking(o.id) || (r.life[o.id].Created? && Get(r.events, s) == Some(o.id)))
  }

  lemma ReopenStaysServed(r: Registry, i: nat, s: ServerId)
    requires Valid(r) && Served(r, s) && UnderWay(r, s) <= 1 && i < |r.teardown|
    ensures Served(Reopened(r, i), s)
  {
    if r.teardown[i].server == s {
      assert TornDown(r.teardown)[i] == s;
      assert Count(TornDown(r.teardown), s) > 0;
      forall o | o in r.reopening ensures o.server in multiset(Servers(r.reopening)) {
        var j :| 0 <= j < |r.reopening| && r.reopening[j] == o;
        assert Servers(r.reopening)[j] == o.server;
      }
    }
  }

  /** While the run is open and no two re-handshakes of a server overlap, each of its calls can come back. */
  lemma {:induction false} SerialCallsComeBack(r: Registry, ops: seq<Op>, s: ServerId, o: Opening)
    requires Valid(r) && Served(r, s) && OverlapAtMost(r, ops, s, 1) && Shut !in ops && !r.phase.Closing?
    requires o in Run(r, ops).reopening && o.server == s
    ensures CanBeSet(Run(r, ops), o.id)
    decreases |ops|
  {
    if |ops| == 0 {
      WaitEndsIff(r, o.id);
    } else {
      var op := ops[0];
      if op.Reopen? && IsEnabled(r, op) {
        ReopenStaysServed(r, op.index, s);
      } else {
        if op.Reopen? { assert Step(r, op) == r; } else { StepStaysServed(r, op, s); }
      }
      StepStaysValid(r, op);
      SerialCallsComeBack(Step(r, op), ops[1..], s, o);
    }
  }

  lemma StepStaysServed(r: Registry, op: Op, s: ServerId)
    requires Valid(r) && Served(r, s) && op != Shut && !r.phase.Closing? && !op.Reopen?
    ensures Served(Step(r, op), s)
  {
    var n := Step(r, op);
    forall o | o in n.reopening ensures o in r.reopening {
      if op.Resume? && IsEnabled(r, op) {
        assert n.reopening == Without(r.reopening, op.index);
      }
    }
  }

  // -------------------------------------------------------------------------------------------
  // Closing
  // -------------------------------------------------------------------------------------------

  /** Once the run has closed, no session is visible any more and no handshake was made since. */
  ghost predicate CloseIsFinal(r: Registry) {
    forall ops :: var n := Run(Step(r, Shut), ops);
      n.phase.Closed? ==> n.sessions == map[] && n.handshakes == r.handshakes
  }

  /**
   * A task that is still connecting and that closing does not wait for: its server's entry belongs to
   * another task or was removed by one. One without its first step needs some other task to wait for.
   */
  predicate Escapes(r: Registry, id: SessionId)
    requires Known(r, id)
  {
    !IsTracked(r, id) && (r.life[id].Shaking? || (r.life[id].Created? && r.tasks != map[]))
  }

  /** What closing and every step after it keeps when nothing escapes. */
  ghost predicate IsSealed(r: Registry, handshakes: seq<ServerId>) {
    && r.teardown == [] && r.handshakes == handshakes && |r.life| == |handshakes|
    && match r.phase
       case Running => false
       case Closing(tasks) => forall id | 0 <= id < |r.life| :: r.life[id].Created? || r.life[id].Shaking? ==> id in tasks
       case Closed => r.sessions == map[] && r.events == map[] && forall id | 0 <= id < |r.life| :: !r.life[id].Shaking?
  }

  lemma StepStaysSealed(r: Registry, op: Op, handshakes: seq<ServerId>)
    requires IsSealed(r, handshakes)
    ensures IsSealed(Step(r, op), handshakes)
  {
  }

  lemma {:induction false} StaysSealed(r: Registry, ops: seq<Op>, handshakes: seq<ServerId>)
    requires IsSealed(r, handshakes)
    ensures IsSealed(Run(r, ops), handshakes)
    decreases |ops|
  {
    if |ops| > 0 {
      StepStaysSealed(r, ops[0], handshakes);
      StaysSealed(Step(r, ops[0]), ops[1..], handshakes);
    }
  }

  lemma ShutSeals(r: Registry)
    requires Valid(r) && r.phase.Running? && r.teardown == []
    requires forall id: SessionId | Known(r, id) :: !Escapes(r, id)
    ensures IsSealed(Step(r, Shut), r.handshakes)
  {
    forall id | 0 <= id < |r.life| && (r.life[id].Created? || r.life[id].Shaking?) && r.tasks != map[]
      ensures id in r.tasks.Values
    {
      assert Known(r, id) && IsTracked(r, id);
    }
    if r.tasks == map[] {
      forall id | 0 <= id < |r.life| ensures !r.life[id].Shaking? {
        assert Known(r, id) && !IsTracked(r, id);
      }
    }
  }

  lemma StartedFrame(r: Registry, id: SessionId)
    requires Valid(r) && id < |r.life|
    ensures var begun := Step(r, Start(id));
            && Valid(begun) && !begun.life[id].Created?
            && begun == r.(life := begun.life)
            && begun.life == r.life[id := begun.life[id]]
            && (!r.life[id].Created? ==> begun == r)
  {
    StepStaysValid(r, Start(id));
  }

  lemma EndedFrame(r: Registry, id: SessionId)
    requires Valid(r) && id < |r.life| && !r.life[id].Created?
    ensures var n := Step(r, End(id));
            && Valid(n) && IsOver(n, id)
            && n == r.(life := r.life[id := Over], ready := n.ready, sessions := n.sessions, tasks := n.tasks)
            && (!r.life[id].Shaking? ==> n.ready == r.ready)
  {
    StepStaysValid(r, End(id));
    assert r.life[id].Over? ==> r.life[id := Over] == r.life;
    assert r.life[id].Live? ==> r.ready + {r.life[id].event} == r.ready;
  }

  /** A task that is waited for can be brought to its end. */
  lemma TaskEnds(r: Registry, id: SessionId) returns (n: Registry)
    requires Valid(r) && id < |r.life|
    ensures Reaches(r, n) && Valid(n) && IsOver(n, id)
    ensures n == r.(life := r.life[id := Over], ready := n.ready, sessions := n.sessions, tasks := n.tasks)
    ensures r.life[id].Live? || r.life[id].Over? ==> n.ready == r.ready
  {
    var begun := Step(r, Start(id));
    n := Step(begun, End(id));
    ReachStep(r, Start(id));
    ReachStep(begun, End(id));
    ReachTrans(r, begun, n);
    StartedFrame(r, id);
    EndedFrame(begun, id);
    assert begun.life[id := Over] == r.life[id := Over];
  }

  function Ended(life: seq<Life>, ids: set<SessionId>): seq<Life> {
    seq(|life|, i requires 0 <= i < |life| => if i in ids then Over else life[i])
  }

  /** Closing comes to its end: it waited for its tasks, and nothing else changed. */
  lemma {:induction false} CloseComesToEnd(r: Registry, left: set<SessionId>) returns (n: Registry)
    requires Valid(r) && r.phase.Closing? && left <= r.phase.tasks
    requires forall id | id in r.phase.tasks && id !in left :: IsOver(r, id)
    ensures Reaches(r, n) && Valid(n)
    ensures n == r.(phase := Closed, sessions := map[], tasks := map[], events := map[],
                    ready := n.ready, life := Ended(r.life, r.phase.tasks))
    ensures (forall id | id in r.phase.tasks :: r.life[id].Live? || r.life[id].Over?) ==> n.ready == r.ready
    decreases left
  {
    if left == {} {
      n := Step(r, Drop);
      assert IsEnabled(r, Drop);
      ReachStep(r, Drop);
      StepStaysValid(r, Drop);
      assert Ended(r.life, r.phase.tasks) == r.life;
    } else {
      var id :| id in left;
      var next := TaskEnds(r, id);
      n := CloseComesToEnd(next, left - {id});
      ReachTrans(r, next, n);
      assert Ended(next.life, r.phase.tasks) == Ended(r.life, r.phase.tasks);
    }
  }

  /** From the moment closing begins until it is over. */
  lemma CloseCompletes(r: Registry) returns (n: Registry)
    requires Valid(r) && r.phase.Running?
    ensures Reaches(r, n) && Reaches(Step(r, Shut), n) && Valid(n)
    ensures n == ClosedDown(r).(ready := n.ready)
    ensures (forall id | id in r.tasks.Values :: r.life[id].Live? || r.life[id].Over?) ==> n.ready == r.ready
  {
    var shut := Step(r, Shut);
    ReachStep(r, Shut);
    StepStaysValid(r, Shut);
    if r.tasks == map[] {
      n := shut;
      ReachSelf(n);
      assert Ended(r.life, {}) == r.life;
    } else {
      n := CloseComesToEnd(shut, r.tasks.Values);
      ReachTrans(r, shut, n);
    }
  }

  /** The registry closed, if no other step comes in between. */
  function ClosedDown(r: Registry): Registry {
    r.(phase := Closed, sessions := map[], tasks := map[], events := map[],
       life := Ended(r.life, r.tasks.Values))
  }

  /** A re-handshake that is still tearing its stale session down makes a task after the close. */
  lemma TeardownOpensLate(r: Registry, i: nat) returns (n: Registry)
    requires Valid(r) && r.phase.Running? && i < |r.teardown|
    ensures Reaches(Step(r, Shut), n) && Valid(n) && n.phase.Closed?
    ensures n.handshakes == r.handshakes + [r.teardown[i].server] && |n.life| == |r.life| + 1
    ensures n.life[|r.life|].Created? && r.teardown[i].server in n.events
  {
    var shut := Step(r, Shut);
    var done := CloseCompletes(r);
    var stale := r.teardown[i].stale;
    if stale.Some? {
      var ended := TaskEnds(done, stale.value);
      ReachTrans(shut, done, ended);
      done := ended;
    }
    n := Step(done, Reopen(i));
    assert IsEnabled(done, Reopen(i));
    ReachStep(done, Reopen(i));
    ReachTrans(shut, done, n);
    StepStaysValid(done, Reopen(i));
  }

  /** A task that escapes is visible after the close, if it answers then. */
  lemma EscapedOpensLate(r: Registry, id: SessionId) returns (n: Registry)
    requires Valid(r) && r.phase.Running? && Known(r, id) && Escapes(r, id)
    ensures Reaches(Step(r, Shut), n) && n.phase.Closed? && r.handshakes[id] in n.sessions
  {
    var shut := Step(r, Shut);
    StepStaysValid(r, Shut);
    var going := Step(shut, Start(id));
    ReachStep(shut, Start(id));
    StepStaysValid(shut, Start(id));
    assert going.life[id].Shaking?;
    var done := going;
    if r.tasks == map[] {
      ReachSelf(going);
    } else {
      assert id !in r.tasks.Values;
      done := CloseComesToEnd(going, r.tasks.Values);
    }
    assert done.life[id].Shaking?;
    n := Step(done, Settle(id, true));
    ReachStep(done, Settle(id, true));
    ReachTrans(shut, going, done);
    ReachTrans(shut, done, n);
  }

  /**
   * Closing is final exactly when no re-handshake is still tearing a stale session down and no task
   * that still connects escapes it.
   */
  lemma CloseIsFinalIff(r: Registry)
    requires Valid(r) && r.phase.Running?
    ensures CloseIsFinal(r) <==> r.teardown == [] && forall id: SessionId | Known(r, id) :: !Escapes(r, id)
  {
    var shut := Step(r, Shut);
    if r.teardown != [] {
      var n := TeardownOpensLate(r, 0);
    } else if id: SessionId :| Known(r, id) && Escapes(r, id) {
      var n := EscapedOpensLate(r, id);
    } else {
      ShutSeals(r);
      forall ops ensures IsSealed(Run(shut, ops), r.handshakes) {
        StaysSealed(shut, ops, r.handshakes);
      }
    }
  }

  /** What an unfinished teardown leads to: a session that is visible after the run was closed. */
  lemma TeardownOutlivesClose(r: Registry, i: nat)
    requires Valid(r) && r.phase.Running? && i < |r.teardown|
    ensures exists ops :: var n := Run(Step(r, Shut), ops); n.phase.Closed? && r.teardown[i].server in n.sessions
  {
    var shut, id := Step(r, Shut), |r.life|;
    var made := TeardownOpensLate(r, i);
    var going := Step(made, Start(id));
    var n := Step(going, Settle(id, true));
    ReachStep(made, Start(id));
    ReachStep(going, Settle(id, true));
    ReachTrans(shut, made, going);
    ReachTrans(shut, going, n);
  }

  /** And what an overlap leads to: the task whose entry was overwritten escapes the close. */
  lemma OverlappedTaskOutlivesClose(s: ServerId)
    ensures exists ops :: var r := Run(OpenAll(Fresh(), [s], {s}), ops);
              r.phase.Running? && r.teardown == [] && !CloseIsFinal(r)
  {
    OpenedOneIsReached(s);
    var ops := TwoOverlap(s);
    var r := TwoReopened(s);
    FirstIsForgotten(s);
    assert Known(r, 1) && s in r.tasks && Escapes(r, 1);
    CloseIsFinalIff(r);
  }

  // -------------------------------------------------------------------------------------------
  // The registry and the tools that share it
  // -------------------------------------------------------------------------------------------

  class McpSessionRegistry {
    const servers: set<ServerId>
    var configs: set<ServerId>
    var sessions: map<ServerId, SessionId>
    var tasks: map<ServerId, SessionId>
    var events: map<ServerId, SessionId>
    var ready: set<SessionId>
    var rehandshakeUsed: set<ServerId>
    var closed: bool
    var handshakes: seq<ServerId>
    var life: seq<Life>

    function State(): Registry
      reads this
    {
      Registry(configs, sessions, tasks, events, ready, rehandshakeUsed, [], [],
               if closed then Closed else Running, handshakes, life)
    }

    constructor (servers: set<ServerId>)
      ensures this.servers == servers && State() == Fresh()
    {
      this.servers := servers;
      configs, sessions, tasks, events, ready := {}, map[], map[], map[], {};
      rehandshakeUsed, closed, handshakes, life := {}, false, [], [];
    }

    method Connect(server: ServerId, answers: bool)
      modifies this`sessions, this`tasks, this`events, this`ready, this`handshakes, this`life
      ensures State() == Handshake(old(State()), server, answers)
    {
      var id := |handshakes|;
      events := events[server := id];
      handshakes := handshakes + [server];
      ready := ready + {id};
      if answers {
        sessions, tasks, life := sessions[server := id], tasks[server := id], life + [Live(id)];
      } else {
        sessions, tasks, life := sessions - {server}, tasks - {server}, life + [Over];
      }
    }

    method Open(wanted: seq<ServerId>, answering: set<ServerId>)
      modifies this
      ensures State() == OpenAll(old(State()), Resolve(wanted, servers, {}), answering)
    {
      var i := 0;
      var done: set<ServerId> := {};
      ghost var goal := OpenAll(State(), Resolve(wanted, servers, {}), answering);
      assert wanted[0..] == wanted;
      while i < |wanted|
        invariant 0 <= i <= |wanted|
        invariant goal == OpenAll(State(), Resolve(wanted[i..], servers, done), answering)
      {
        var s := wanted[i];
        assert wanted[i..][0] == s && wanted[i..][1..] == wanted[i + 1..];
        if s in servers && s !in done {
          ghost var rest := Resolve(wanted[i + 1..], servers, done + {s});
          assert ([s] + rest)[1..] == rest;
          done := done + {s};
          Connect(s, s in answering);
          configs := configs + {s};
        }
        i := i + 1;
      }
    }

    method GetSession(server: ServerId) returns (session: Option<SessionId>)
      ensures session == Get(sessions, server)
    {
      session := if server in sessions then Some(sessions[server]) else None;
    }

    method TearDown(server: ServerId)
      requires Valid(State())
      modifies this`life, this`sessions, this`tasks
      ensures State() == Torn(old(State()), server)
    {
      if server in tasks {
        life := life[tasks[server] := Over];
      }
      sessions, tasks := sessions - {server}, tasks - {server};
    }

    /** Without anything in between, the steps of a re-handshake; it gives back what it opened. */
    method Rehandshake(server: ServerId, answers: bool) returns (renewed: Option<SessionId>)
      requires Valid(State()) && IsIdle(State())
      modifies this
      ensures State() == Rehandshaken(old(State()), server, answers)
      ensures Valid(State()) && IsIdle(State())
      ensures renewed == if Admits(old(State()), server) && answers then Some(old(|handshakes|)) else None
    {
      RehandshakenStaysIdle(State(), server, answers);
      if closed || server !in configs || server in rehandshakeUsed {
        return None;
      }
      TearDown(server);
      Connect(server, answers);
      rehandshakeUsed := rehandshakeUsed + {server};
      renewed := GetSession(server);
    }

    method Close()
      modifies this
      ensures State() == if old(closed) then old(State()) else ClosedDown(old(State()))
    {
      if closed {
        return;
      }
      closed := true;
      life := Ended(life, tasks.Values);
      sessions, tasks, events := map[], map[], map[];
    }
  }

  /** The stale task was told to end, and has ended. */
  function Torn(r: Registry, server: ServerId): Registry {
    var stale := Get(r.tasks, server);
    r.(life := if stale.Some? && stale.value < |r.life| then r.life[stale.value := Over] else r.life,
       sessions := r.sessions - {server},
       tasks := r.tasks - {server})
  }

  /** The stale task is ended, a new one made, and the budget spent. */
  function Rehandshaken(r: Registry, server: ServerId, answers: bool): Registry {
    if !Admits(r, server) then r else Handshake(Torn(r, server), server, answers).(used := r.used + {server})
  }

  lemma RehandshakenStaysIdle(r: Registry, server: ServerId, answers: bool)
    requires Valid(r) && IsIdle(r)
    ensures Valid(Rehandshaken(r, server, answers)) && IsIdle(Rehandshaken(r, server, answers))
  {
  }

  /** The first of its two waits, alone. */
  lemma TornDownAlone(r: Registry, server: ServerId) returns (torn: Registry)
    requires Valid(r) && IsIdle(r) && Admits(r, server)
    ensures Reaches(r, torn) && Valid(torn)
    ensures torn == Torn(r, server).(teardown := [Teardown(server, Get(r.tasks, server))],
                                     sessions := torn.sessions, tasks := torn.tasks)
    ensures torn.sessions - {server} == r.sessions - {server} && torn.tasks - {server} == r.tasks - {server}
  {
    torn := Step(r, Begin(server));
    ReachStep(r, Begin(server));
    StepStaysValid(r, Begin(server));
    var stale := Get(r.tasks, server);
    assert torn.teardown == [Teardown(server, stale)];
    if stale.Some? {
      var begun := torn;
      torn := Step(begun, End(stale.value));
      EndedFrame(begun, stale.value);
      ReachStep(begun, End(stale.value));
      ReachTrans(r, begun, torn);
    }
  }

  /** The registry after an opening that settled, with its call still to come back. */
  function Opened(r: Registry, s: ServerId, answers: bool): Registry {
    Handshake(r, s, answers).(teardown := [], reopening := [Opening(s, |r.handshakes|)])
  }

  lemma SettlesAsHandshake(r: Registry, answers: bool)
    requires Valid(r) && |r.teardown| == 1 && r.reopening == []
    ensures var made, id := Reopened(r, 0), |r.handshakes|;
            Settled(Started(made, id), id, answers) == Opened(r, r.teardown[0].server, answers)
  {
    var id, s := |r.handshakes|, r.teardown[0].server;
    var going := Started(Reopened(r, 0), id);
    assert going.life == r.life + [Shaking(id)];
    assert Settled(going, id, answers).life == r.life + [if answers then Live(id) else Over];
    assert going.reopening == [Opening(s, id)] && going.teardown == [];
    assert r.tasks[s := id] - {s} == r.tasks - {s};
    assert r.sessions - {s} - {s} == r.sessions - {s};
    assert (r.sessions - {s})[s := id] == r.sessions[s := id];
  }

  lemma OpensAlone(r: Registry, answers: bool)
    requires Valid(r) && |r.teardown| == 1 && r.reopening == [] && IsEnabled(r, Reopen(0))
    ensures Reaches(r, Opened(r, r.teardown[0].server, answers))
  {
    var id := |r.handshakes|;
    var made := Step(r, Reopen(0));
    var going := Step(made, Start(id));
    SettlesAsHandshake(r, answers);
    ReachStep(r, Reopen(0));
    ReachStep(made, Start(id));
    ReachStep(going, Settle(id, answers));
    ReachTrans(r, made, going);
    ReachTrans(r, going, Step(going, Settle(id, answers)));
  }

  /** The second, alone. */
  lemma ReopenedAlone(r: Registry, answers: bool) returns (n: Registry)
    requires Valid(r) && |r.teardown| == 1 && r.reopening == [] && IsEnabled(r, Reopen(0))
    ensures var s := r.teardown[0].server;
            Reaches(r, n) && n == Handshake(r, s, answers).(used := r.used + {s}, teardown := [])
  {
    var done := Opened(r, r.teardown[0].server, answers);
    OpensAlone(r, answers);
    n := Step(done, Resume(0));
    assert Without(done.reopening, 0) == [];
    ReachStep(done, Resume(0));
    ReachTrans(r, done, n);
  }

  /** What a server had before does not show after its handshake. */
  lemma HandshakeReplaces(a: Registry, b: Registry, s: ServerId, answers: bool)
    requires b == a.(teardown := b.teardown, sessions := b.sessions, tasks := b.tasks)
    requires a.sessions - {s} == b.sessions - {s} && a.tasks - {s} == b.tasks - {s}
    ensures Handshake(b, s, answers) == Handshake(a, s, answers).(teardown := b.teardown)
  {
    var id := |a.handshakes|;
    forall m: map<ServerId, SessionId> ensures m[s := id] == (m - {s})[s := id] {}
    assert b.sessions[s := id] == a.sessions[s := id] && b.tasks[s := id] == a.tasks[s := id];
  }

  /** A re-handshake that nothing interrupts is one run of its steps. */
  lemma RehandshakenIsItsSteps(r: Registry, server: ServerId, answers: bool)
    requires Valid(r) && IsIdle(r)
    ensures Reaches(r, Rehandshaken(r, server, answers))
  {
    if Admits(r, server) {
      var torn := TornDownAlone(r, server);
      var n := ReopenedAlone(torn, answers);
      ReachTrans(r, torn, n);
      HandshakeReplaces(Torn(r, server), torn, server, answers);
    } else {
      ReachSelf(r);
    }
  }

  /** A close that nothing interrupts is one run of its steps. */
  lemma ClosedDownIsItsSteps(r: Registry)
    requires Valid(r) && IsIdle(r) && r.phase.Running?
    ensures Reaches(r, ClosedDown(r))
  {
    var n := CloseCompletes(r);
  }

  /** How one attempt against a session ends. */
  datatype Attempt = Answered(text: string) | Stale | Failed(error: string)

  /** What a tool call comes to: how it ended, and the sessions it tried, in order. */
  datatype CallResult = CallResult(outcome: Attempt, attempts: seq<SessionId>, current: SessionId)

  /** The specification of a call by a tool whose cell holds `current`. */
  function Called(r: Registry, server: ServerId, current: SessionId, first: Attempt, answers: bool, second: Attempt): CallResult {
    if first.Stale? && Admits(r, server) && answers then
      CallResult(second, [current, |r.handshakes|], |r.handshakes|)
    else CallResult(first, [current], current)
  }

  function AfterCall(r: Registry, server: ServerId, first: Attempt, answers: bool): Registry {
    if first.Stale? then Rehandshaken(r, server, answers) else r
  }

  class McpTool {
    const registry: McpSessionRegistry
    const server: ServerId
    var current: SessionId

    constructor (registry: McpSessionRegistry, server: ServerId, session: SessionId)
      ensures this.registry == registry && this.server == server && current == session
    {
      this.registry, this.server, current := registry, server, session;
    }

    /** `first` and `second` are how the transport answers the two possible attempts. */
    method Call(first: Attempt, answers: bool, second: Attempt) returns (outcome: Attempt, attempts: seq<SessionId>)
      requires Valid(registry.State()) && IsIdle(registry.State())
      modifies this, registry
      ensures Valid(registry.State()) && IsIdle(registry.State())
      ensures CallResult(outcome, attempts, current)
           == old(Called(registry.State(), server, current, first, answers, second))
      ensures registry.State() == old(AfterCall(registry.State(), server, first, answers))
      ensures !first.Stale? || !old(Admits(registry.State(), server)) ==>
        registry.State() == old(registry.State()) && current == old(current) && outcome == first && attempts == [old(current)]
      ensures first.Stale? && old(Admits(registry.State(), server)) ==>
        && registry.handshakes == old(registry.handshakes) + [server]
        && registry.rehandshakeUsed == old(registry.rehandshakeUsed) + {server}
        && Get(registry.sessions, server) == (if answers then Some(old(|registry.handshakes|)) else None)
        && (forall s | s != server :: Get(registry.sessions, s) == old(Get(registry.sessions, s)))
    {
      outcome, attempts := first, [current];
      if !outcome.Stale? {
        return;
      }
      var renewed := registry.Rehandshake(server, answers);
      if renewed.None? {
        return;
      }
      current := renewed.value;
      outcome, attempts := second, attempts + [current];
    }
  }

  /**
   * The retry rule, exactly: a call makes at most two attempts; it makes a second one if and only
   * if the first met a stale session and the server's one re-handshake of an unfinished run was
   * still there and succeeded; and the second attempt runs on the session just opened.
   */
  lemma RetryRule(r: Registry, server: ServerId, current: SessionId, first: Attempt, answers: bool, second: Attempt)
    ensures var c := Called(r, server, current, first, answers, second);
            && 1 <= |c.attempts| <= 2
            && (|c.attempts| == 2 <==> first == Stale && Admits(r, server) && answers)
            && (|c.attempts| == 1 ==> c.outcome == first && c.current == current)
            && (|c.attempts| == 2 ==>
                  var after := AfterCall(r, server, first, answers);
                  && server in after.sessions && after.sessions[server] == c.attempts[1] == c.current
                  && c.outcome == second && server in after.used)
  {
  }

  /** One call by one tool, with the transport's answers. */
  datatype Request = Request(server: ServerId, first: Attempt, answers: bool)

  function RunCalls(r: Registry, calls: seq<Request>): Registry
    decreases |calls|
  {
    if |calls| == 0 then r
    else RunCalls(AfterCall(r, calls[0].server, calls[0].first, calls[0].answers), calls[1..])
  }

  predicate IsStaleCall(c: Request, s: ServerId) {
    c.server == s && c.first.Stale?
  }

  /** What a run holds for one server, apart from the tasks. */
  predicate AgreesOn(a: Registry, b: Registry, s: ServerId) {
    && Count(a.handshakes, s) == Count(b.handshakes, s) && (s in a.used <==> s in b.used)
    && Get(a.sessions, s) == Get(b.sessions, s) && Get(a.tasks, s) == Get(b.tasks, s)
    && a.phase == b.phase && a.configs == b.configs
  }

  /** Calls that meet no staleness of a server, and stale ones it does not admit, leave it as it was. */
  lemma {:induction false} OtherCallsLeaveServer(r: Registry, calls: seq<Request>, s: ServerId)
    requires Admits(r, s) ==> forall c | c in calls :: !IsStaleCall(c, s)
    ensures AgreesOn(RunCalls(r, calls), r, s)
    decreases |calls|
  {
    if |calls| > 0 {
      var call := calls[0];
      assert !(IsStaleCall(call, s) && Admits(r, s));
      AddCount(r.handshakes, call.server, s);
      OtherCallsLeaveServer(AfterCall(r, call.server, call.first, call.answers), calls[1..], s);
    }
  }

  lemma {:induction false} RunCallsConcat(r: Registry, a: seq<Request>, b: seq<Request>)
    ensures RunCalls(r, a + b) == RunCalls(RunCalls(r, a), b)
    decreases |a|
  {
    if a == [] {
      assert a + b == b;
    } else {
      assert (a + b)[0] == a[0] && (a + b)[1..] == a[1..] + b;
      RunCallsConcat(AfterCall(r, a[0].server, a[0].first, a[0].answers), a[1..], b);
    }
  }

  /** The first stale call of a server that is admitted makes its one handshake, and decides its session for good. */
  lemma FirstStaleCallSpends(r: Registry, calls: seq<Request>, s: ServerId, k: nat)
    requires Admits(r, s) && k < |calls| && IsStaleCall(calls[k], s)
    requires forall c | c in calls[..k] :: !IsStaleCall(c, s)
    ensures var later := RunCalls(r, calls);
            && Count(later.handshakes, s) == Count(r.handshakes, s) + 1 && s in later.used
            && (s in later.sessions <==> calls[k].answers)
  {
    var call := calls[k];
    var before := RunCalls(r, calls[..k]);
    var after := AfterCall(before, s, call.first, call.answers);
    OtherCallsLeaveServer(r, calls[..k], s);
    AddCount(before.handshakes, s, s);
    OtherCallsLeaveServer(after, calls[k + 1..], s);
    assert calls == calls[..k] + calls[k..] && calls[k..][0] == call && calls[k..][1..] == calls[k + 1..];
    RunCallsConcat(r, calls[..k], calls[k..]);
    assert RunCalls(before, calls[k..]) == RunCalls(after, calls[k + 1..]);
  }

  lemma {:induction false} FirstStaleCall(calls: seq<Request>, s: ServerId) returns (k: nat)
    requires exists c :: c in calls && IsStaleCall(c, s)
    ensures k < |calls| && IsStaleCall(calls[k], s) && forall c | c in calls[..k] :: !IsStaleCall(c, s)
  {
    if IsStaleCall(calls[0], s) {
      k := 0;
    } else {
      var c :| c in calls && IsStaleCall(c, s);
      assert c in calls[1..];
      k := FirstStaleCall(calls[1..], s);
      assert calls[..k + 1] == [calls[0]] + calls[1..][..k];
      k := k + 1;
    }
  }

  /**
   * Over every sequence of calls, a server's budget is spent, by its one handshake, exactly when it
   * was open to a re-handshake and some call of its own met a stale session.
   */
  lemma OnlyStaleCallsSpend(r: Registry, calls: seq<Request>, s: ServerId)
    ensures var later := RunCalls(r, calls);
            var spends := Admits(r, s) && exists c :: c in calls && IsStaleCall(c, s);
            && (s in later.used <==> s in r.used || spends)
            && Count(later.handshakes, s) == Count(r.handshakes, s) + (if spends then 1 else 0)
            && (!spends ==> AgreesOn(later, r, s))
  {
    if Admits(r, s) && exists c :: c in calls && IsStaleCall(c, s) {
      var k := FirstStaleCall(calls, s);
      FirstStaleCallSpends(r, calls, s, k);
    } else {
      OtherCallsLeaveServer(r, calls, s);
    }
  }

  lemma RehandshakenKeepsBudget(r: Registry, server: ServerId, answers: bool, s: ServerId)
    requires Valid(r) && r.phase.Running? && IsIdle(r) && WithinBudget(r, s, 1)
    ensures var after := Rehandshaken(r, server, answers);
            Valid(after) && after.phase.Running? && IsIdle(after) && WithinBudget(after, s, 1)
  {
    RehandshakenStaysIdle(r, server, answers);
    assert multiset(r.handshakes + [server]) == multiset(r.handshakes) + multiset{server};
  }

  /**
   * For every sequence of calls, one after the other, by any tools of the run: each server sees at
   * most two handshakes, and closing afterwards is final.
   */
  lemma {:induction false} SerialCallsStayInBudget(r: Registry, calls: seq<Request>, s: ServerId)
    requires Valid(r) && r.phase.Running? && IsIdle(r) && WithinBudget(r, s, 1)
    ensures var after := RunCalls(r, calls);
            && Count(after.handshakes, s) <= 2
            && CloseIsFinal(after)
    decreases |calls|
  {
    if |calls| == 0 {
      CloseIsFinalIff(r);
    } else {
      var call := calls[0];
      if call.first.Stale? {
        RehandshakenKeepsBudget(r, call.server, call.answers, s);
      }
      SerialCallsStayInBudget(AfterCall(r, call.server, call.first, call.answers), calls[1..], s);
    }
  }

  lemma {:induction false} DegradedStaysDegraded(r: Registry, calls: seq<Request>, server: ServerId)
    requires server in r.used
    ensures var later := RunCalls(r, calls); server in later.used && Get(later.sessions, server) == Get(r.sessions, server)
    decreases |calls|
  {
    if |calls| > 0 {
      DegradedStaysDegraded(AfterCall(r, calls[0].server, calls[0].first, calls[0].answers), calls[1..], server);
    }
  }

  /**
   * A limit of the design: the fresh session is put in the cell of the tool that noticed, only.
   * Another tool of the same server still holds the stale session. Whatever calls come in between,
   * each of its calls that meets staleness fails, while the registry holds the fresh session.
   */
  lemma SiblingToolMissesFreshSession(
    r: Registry, server: ServerId, shared: SessionId, calls: seq<Request>, second: Attempt, answers: bool)
    requires Admits(r, server)
    ensures var later := RunCalls(AfterCall(r, server, Stale, true), calls);
            && Called(r, server, shared, Stale, true, second).current == |r.handshakes|
            && Get(later.sessions, server) == Some(|r.handshakes|)
            && Called(later, server, shared, Stale, answers, second) == CallResult(Stale, [shared], shared)
  {
    DegradedStaysDegraded(AfterCall(r, server, Stale, true), calls, server);
  }
}
