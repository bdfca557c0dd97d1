/**
 * routes/execute.py and background_run_worker.py: one connection that replays the log of a run and
 * then follows it live, through the broker where the worker lives in the same process and by
 * polling where it does not.
 */
module EventStream {
  import EventLog

  type Event = EventLog.Event
  type Json = EventLog.Payload
  type RunId = string

  const TYPE := "type"
  const SEQUENCE := "sequence"
  const RUN_ID := "run_id"

  // -------------------------------------------------------------------------------------------
  // Frames
  // -------------------------------------------------------------------------------------------

  /** An event body with the number and the run that are stamped on it. */
  datatype Frame = Frame(body: Json, number: nat, run: RunId)

  /** The object that is queued and sent: the two stamps replace what the body says of itself. */
  function Wire(f: Frame): Json {
    f.body[SEQUENCE := EventLog.Number(f.number)][RUN_ID := EventLog.Text(f.run)]
  }

  /** int(event.get("sequence", 0)) */
  function WireNumber(j: Json): int {
    if SEQUENCE in j && j[SEQUENCE].Number? then j[SEQUENCE].number else 0
  }

  /** payload.setdefault("type", event.event_type) */
  function WithType(e: Event): Json {
    if TYPE in e.payload then e.payload else e.payload[TYPE := EventLog.Text(e.eventType)]
  }

  /** What a replay sends for entry `n`. */
  function ReplayFrame(run: RunId, n: nat, e: Event): Frame {
    Frame(WithType(e), n, run)
  }

  /** What the worker publishes for entry `n`. */
  function LiveFrame(run: RunId, n: nat, e: Event): Frame {
    Frame(e.payload, n, run)
  }

  /** The loop reads back the number that was stamped, whatever the body held. */
  lemma NumberSurvivesWire(f: Frame)
    ensures WireNumber(Wire(f)) == f.number
  {
    assert |SEQUENCE| != |RUN_ID|;
  }

  /** Reconnecting shows the same object as following live exactly when the payload names its type. */
  lemma FramesAgreeIff(run: RunId, n: nat, e: Event)
    ensures Wire(ReplayFrame(run, n, e)) == Wire(LiveFrame(run, n, e)) <==> TYPE in e.payload
  {
    assert |TYPE| != |SEQUENCE| && |TYPE| != |RUN_ID|;
    assert TYPE in Wire(ReplayFrame(run, n, e));
    assert TYPE in Wire(LiveFrame(run, n, e)) <==> TYPE in e.payload;
  }

  /** What is sent is the payload, with the number and the run stamped on it, and on a replay the type it lacks. */
  lemma WireKeepsTheRest(run: RunId, n: nat, e: Event, key: string)
    ensures var w := Wire(ReplayFrame(run, n, e));
            && RUN_ID in w && w[RUN_ID] == EventLog.Text(run) && SEQUENCE in w && w[SEQUENCE] == EventLog.Number(n)
            && TYPE in w && w[TYPE] == (if TYPE in e.payload then e.payload[TYPE] else EventLog.Text(e.eventType))
    ensures key != RUN_ID && key != SEQUENCE && key != TYPE ==>
              var r, l := Wire(ReplayFrame(run, n, e)), Wire(LiveFrame(run, n, e));
              && (key in r <==> key in e.payload) && (key in r ==> r[key] == e.payload[key])
              && (key in l <==> key in e.payload) && (key in l ==> l[key] == e.payload[key])
  {
    assert |SEQUENCE| != |RUN_ID| && |TYPE| != |SEQUENCE| && |TYPE| != |RUN_ID|;
  }

  /** The replay frames of the entries of `log` above the first `from`. */
  function ReplayFrames(run: RunId, log: seq<Event>, from: nat): (fs: seq<Frame>)
    ensures |fs| == if from < |log| then |log| - from else 0
    decreases |log|
  {
    if |log| <= from then []
    else ReplayFrames(run, log[..|log| - 1], from) + [ReplayFrame(run, |log|, log[|log| - 1])]
  }

  // -------------------------------------------------------------------------------------------
  // The connection
  // -------------------------------------------------------------------------------------------

  /** last_sequence and everything sent so far. */
  datatype Conn = Conn(last: int, sent: seq<Frame>)

  /** The cursor after every entry above it was sent. */
  function AfterAll(last: int, log: seq<Event>): int {
    if EventLog.From(last) < |log| then |log| else last
  }

  function AfterReplay(c: Conn, run: RunId, log: seq<Event>): Conn {
    Conn(AfterAll(c.last, log), c.sent + ReplayFrames(run, log, EventLog.From(c.last)))
  }

  function AfterLive(c: Conn, f: Frame): Conn {
    if f.number > c.last then Conn(f.number, c.sent + [f]) else c
  }

  datatype Phase = Connecting | Replaying | CheckingStatus | Waiting | Done

  /**
   * One run, one connection to it, and the broker between them. `log` is the committed log, `due`
   * the committed events whose publishing is still to come, `live` every number that was or will be
   * published here, `queue` what this connection was handed, and `read` the length of the log at the
   * last replay.
   */
  datatype State = State(
    log: seq<Event>,
    live: set<nat>,
    due: seq<nat>,
    queue: seq<Frame>,
    ended: bool,
    phase: Phase,
    read: nat,
    conn: Conn)

  /** A commit may carry the end of the run with it, as the error and run_aborted events do. */
  datatype Op =
    | Commit(event: Event, publishes: bool, ends: bool)
    | End
    | Publish(index: nat)
    | Subscribe
    | Replay
    | CheckStatus
    | Dequeue
    | Timeout

  function Start(after: int): State {
    State([], {}, [], [], false, Connecting, 0, Conn(after, []))
  }

  function Published(run: RunId, s: State, n: nat): seq<Frame> {
    if s.phase.Connecting? || n == 0 || n > |s.log| then s.queue else s.queue + [LiveFrame(run, n, s.log[n - 1])]
  }

  function Step(run: RunId, s: State, op: Op): State {
    match op
    case Commit(e, publishes, ends) =>
      var n := |s.log| + 1;
      s.(log := s.log + [e],
         live := if publishes then s.live + {n} else s.live,
         due := if publishes then s.due + [n] else s.due,
         ended := s.ended || ends)
    case End => s.(ended := true)
    case Publish(i) =>
      if i < |s.due| then
        s.(queue := Published(run, s, s.due[i]), due := s.due[..i] + s.due[i + 1..])
      else s
    case Subscribe => if s.phase.Connecting? then s.(phase := Replaying) else s
    case Replay =>
      if s.phase.Replaying? then
        s.(conn := AfterReplay(s.conn, run, s.log), read := |s.log|, phase := CheckingStatus)
      else s
    case CheckStatus =>
      if s.phase.CheckingStatus? then s.(phase := if s.ended then Done else Waiting) else s
    case Dequeue =>
      if s.phase.Waiting? && |s.queue| > 0 then
        s.(conn := AfterLive(s.conn, s.queue[0]), queue := s.queue[1..], phase := Replaying)
      else s
    case Timeout => if s.phase.Waiting? then s.(phase := Replaying) else s
  }

  function Run(run: RunId, s: State, ops: seq<Op>): State
    decreases |ops|
  {
    if |ops| == 0 then s else Run(run, Step(run, s, ops[0]), ops[1..])
  }

  // -------------------------------------------------------------------------------------------
  // What is sent
  // -------------------------------------------------------------------------------------------

  /** `f` is entry `f.number` of the log, as a replay or as the broker shows it. */
  predicate IsEntry(run: RunId, log: seq<Event>, f: Frame) {
    var n := f.number;
    && 1 <= n <= |log|
    && (f == ReplayFrame(run, n, log[n - 1]) || f == LiveFrame(run, n, log[n - 1]))
  }

  function LastOf(after: int, sent: seq<Frame>): int {
    if |sent| == 0 then after else sent[|sent| - 1].number
  }

  /** Frames in strictly ascending order, each one an entry of the log above `after`. */
  predicate IsAscending(run: RunId, log: seq<Event>, after: int, sent: seq<Frame>)
    decreases |sent|
  {
    |sent| > 0 ==>
      var f := sent[|sent| - 1];
      && IsEntry(run, log, f)
      && LastOf(after, sent[..|sent| - 1]) < f.number
      && IsAscending(run, log, after, sent[..|sent| - 1])
  }

  /** No number between two consecutive frames, or between `after` and the first, is in `live`. */
  predicate SkipsNone(live: set<nat>, after: int, sent: seq<Frame>)
    decreases |sent|
  {
    |sent| > 0 ==>
      && (forall n | n in live :: !(EventLog.From(LastOf(after, sent[..|sent| - 1])) < n < sent[|sent| - 1].number))
      && SkipsNone(live, after, sent[..|sent| - 1])
  }

  lemma SentOne(sent: seq<Frame>, f: Frame)
    ensures (sent + [f])[..|sent|] == sent && (sent + [f])[|sent|] == f
  {
  }

  lemma {:induction false} LongerLog(run: RunId, log: seq<Event>, e: Event, after: int, sent: seq<Frame>)
    requires IsAscending(run, log, after, sent)
    ensures IsAscending(run, log + [e], after, sent)
    decreases |sent|
  {
    if |sent| > 0 {
      LongerLog(run, log, e, after, sent[..|sent| - 1]);
      assert IsEntry(run, log + [e], sent[|sent| - 1]);
    }
  }

  lemma SendOne(run: RunId, log: seq<Event>, live: set<nat>, after: int, sent: seq<Frame>, f: Frame)
    requires IsAscending(run, log, after, sent) && SkipsNone(live, after, sent)
    requires IsEntry(run, log, f) && LastOf(after, sent) < f.number
    requires forall n | n in live :: !(EventLog.From(LastOf(after, sent)) < n < f.number)
    ensures IsAscending(run, log, after, sent + [f]) && SkipsNone(live, after, sent + [f])
    ensures LastOf(after, sent + [f]) == f.number
  {
    SentOne(sent, f);
  }

  lemma ReplayUnfolds(run: RunId, log: seq<Event>, k: nat, from: nat, sent: seq<Frame>)
    requires from < k <= |log|
    ensures sent + ReplayFrames(run, log[..k], from)
         == sent + ReplayFrames(run, log[..k - 1], from) + [ReplayFrame(run, k, log[k - 1])]
  {
    assert log[..k][..k - 1] == log[..k - 1];
  }

  lemma {:induction false} ReplayPrefix(run: RunId, log: seq<Event>, k: nat, live: set<nat>, after: int, sent: seq<Frame>)
    requires k <= |log|
    requires IsAscending(run, log, after, sent) && SkipsNone(live, after, sent)
    ensures var fs := sent + ReplayFrames(run, log[..k], EventLog.From(LastOf(after, sent)));
            && IsAscending(run, log, after, fs) && SkipsNone(live, after, fs)
            && LastOf(after, fs) == AfterAll(LastOf(after, sent), log[..k])
    decreases k
  {
    var from := EventLog.From(LastOf(after, sent));
    if k <= from {
      assert sent + ReplayFrames(run, log[..k], from) == sent;
    } else {
      ReplayPrefix(run, log, k - 1, live, after, sent);
      var before := sent + ReplayFrames(run, log[..k - 1], from);
      var f := ReplayFrame(run, k, log[k - 1]);
      ReplayUnfolds(run, log, k, from, sent);
      assert LastOf(after, before) < k && EventLog.From(LastOf(after, before)) == k - 1;
      SendOne(run, log, live, after, before, f);
    }
  }

  /** A replay continues an ascending delivery and skips no number at all. */
  lemma ReplayContinues(run: RunId, log: seq<Event>, live: set<nat>, after: int, sent: seq<Frame>)
    requires IsAscending(run, log, after, sent) && SkipsNone(live, after, sent)
    ensures var fs := sent + ReplayFrames(run, log, EventLog.From(LastOf(after, sent)));
            && IsAscending(run, log, after, fs) && SkipsNone(live, after, fs)
            && LastOf(after, fs) == AfterAll(LastOf(after, sent), log)
  {
    ReplayPrefix(run, log, |log|, live, after, sent);
    assert log[..|log|] == log;
  }

  // -------------------------------------------------------------------------------------------
  // Every schedule
  // -------------------------------------------------------------------------------------------

  predicate IsSound(run: RunId, after: int, s: State) {
    && IsAscending(run, s.log, after, s.conn.sent)
    && s.conn.last == LastOf(after, s.conn.sent)
    && (forall f | f in s.queue :: IsEntry(run, s.log, f))
    && (forall n | n in s.due :: 1 <= n <= |s.log|)
    && (forall n | n in s.live :: 1 <= n <= |s.log|)
    && (s.phase.Connecting? ==> |s.queue| == 0)
    && s.read <= |s.log|
    && (s.phase.CheckingStatus? || s.phase.Done? ==>
          s.conn.last == s.read || (s.conn.last == after && s.read <= EventLog.From(after)))
  }

  lemma NoneAreLive(after: int, sent: seq<Frame>)
    ensures SkipsNone({}, after, sent)
    decreases |sent|
  {
    if |sent| > 0 {
      NoneAreLive(after, sent[..|sent| - 1]);
    }
  }

  lemma CommitKeepsSound(run: RunId, after: int, s: State, op: Op)
    requires IsSound(run, after, s) && op.Commit?
    ensures IsSound(run, after, Step(run, s, op))
  {
    LongerLog(run, s.log, op.event, after, s.conn.sent);
    forall f | f in s.queue ensures IsEntry(run, s.log + [op.event], f) {
    }
  }

  lemma PublishKeepsSound(run: RunId, after: int, s: State, op: Op)
    requires IsSound(run, after, s) && op.Publish?
    ensures IsSound(run, after, Step(run, s, op))
  {
    if op.index < |s.due| {
      assert s.due[op.index] in s.due;
      var due := s.due[..op.index] + s.due[op.index + 1..];
      forall n | n in due ensures n in s.due {
      }
    }
  }

  lemma LastIsAnEntry(run: RunId, log: seq<Event>, after: int, sent: seq<Frame>)
    requires IsAscending(run, log, after, sent)
    ensures LastOf(after, sent) == after || 1 <= LastOf(after, sent) <= |log|
  {
  }

  lemma ReplayKeepsSound(run: RunId, after: int, s: State)
    requires IsSound(run, after, s)
    ensures IsSound(run, after, Step(run, s, Replay))
  {
    NoneAreLive(after, s.conn.sent);
    ReplayContinues(run, s.log, {}, after, s.conn.sent);
    LastIsAnEntry(run, s.log, after, s.conn.sent);
  }

  lemma DequeueKeepsSound(run: RunId, after: int, s: State)
    requires IsSound(run, after, s)
    ensures IsSound(run, after, Step(run, s, Dequeue))
  {
    if s.phase.Waiting? && |s.queue| > 0 {
      var f := s.queue[0];
      assert f in s.queue;
      NoneAreLive(after, s.conn.sent);
      if f.number > s.conn.last {
        SendOne(run, s.log, {}, after, s.conn.sent, f);
      }
    }
  }

  lemma StepKeepsSound(run: RunId, after: int, s: State, op: Op)
    requires IsSound(run, after, s)
    ensures IsSound(run, after, Step(run, s, op))
  {
    match op
    case Commit(_, _, _) => CommitKeepsSound(run, after, s, op);
    case Publish(_) => PublishKeepsSound(run, after, s, op);
    case Replay => ReplayKeepsSound(run, after, s);
    case Dequeue => DequeueKeepsSound(run, after, s);
    case _ =>
  }

  /**
   * Whatever the writers, the publishers and the connection do in between one another, the frames
   * sent are entries of the committed log in strictly ascending order, all above the start cursor.
   */
  lemma {:induction false} StreamStaysSound(run: RunId, after: int, s: State, ops: seq<Op>)
    requires IsSound(run, after, s)
    ensures IsSound(run, after, Run(run, s, ops))
    decreases |ops|
  {
    if |ops| > 0 {
      StepKeepsSound(run, after, s, ops[0]);
      StreamStaysSound(run, after, Step(run, s, ops[0]), ops[1..]);
    }
  }

  // -------------------------------------------------------------------------------------------
  // Publishing in order
  // -------------------------------------------------------------------------------------------

  /** Events are published in the order they were committed in. */
  predicate PublishesInOrder(ops: seq<Op>)
    decreases |ops|
  {
    |ops| > 0 ==> (ops[0].Publish? ==> ops[0].index == 0) && PublishesInOrder(ops[1..])
  }

  function Numbers(q: seq<Frame>): seq<int> {
    seq(|q|, i requires 0 <= i < |q| => q[i].number)
  }

  /** The numbers still on their way to this connection. */
  function Pending(s: State): seq<int> {
    Numbers(s.queue) + s.due
  }

  predicate Ascends(ns: seq<int>) {
    forall i, j | 0 <= i < j < |ns| :: ns[i] < ns[j]
  }

  predicate IsOrdered(run: RunId, after: int, s: State) {
    && IsSound(run, after, s)
    && SkipsNone(s.live, after, s.conn.sent)
    && Ascends(Pending(s))
    && (s.phase.CheckingStatus? || s.phase.Waiting? || s.phase.Done? ==>
          forall n | n in s.live && n > s.conn.last :: n in Pending(s))
  }

  lemma {:induction false} NewNumberIsNotSkipped(run: RunId, log: seq<Event>, live: set<nat>, after: int, sent: seq<Frame>)
    requires IsAscending(run, log, after, sent) && SkipsNone(live, after, sent)
    ensures SkipsNone(live + {|log| + 1}, after, sent)
    decreases |sent|
  {
    if |sent| > 0 {
      NewNumberIsNotSkipped(run, log, live, after, sent[..|sent| - 1]);
    }
  }

  lemma PendingBound(run: RunId, after: int, s: State)
    requires IsSound(run, after, s)
    ensures forall i | 0 <= i < |Pending(s)| :: Pending(s)[i] <= |s.log|
  {
    forall i | 0 <= i < |Pending(s)| ensures Pending(s)[i] <= |s.log| {
      if i < |s.queue| {
        assert s.queue[i] in s.queue;
      } else {
        assert Pending(s)[i] in s.due;
      }
    }
  }

  lemma AscendsOn(ns: seq<int>, x: int)
    requires Ascends(ns) && forall i | 0 <= i < |ns| :: ns[i] < x
    ensures Ascends(ns + [x])
    ensures forall n :: n in ns + [x] <==> n in ns || n == x
  {
  }

  lemma CommitKeepsOrdered(run: RunId, after: int, s: State, op: Op)
    requires IsOrdered(run, after, s) && op.Commit?
    ensures IsOrdered(run, after, Step(run, s, op))
  {
    CommitKeepsSound(run, after, s, op);
    PendingBound(run, after, s);
    NewNumberIsNotSkipped(run, s.log, s.live, after, s.conn.sent);
    var t := Step(run, s, op);
    if op.publishes {
      AscendsOn(Pending(s), |s.log| + 1);
      assert Pending(t) == Pending(s) + [|s.log| + 1];
    } else {
      assert Pending(t) == Pending(s);
    }
  }

  lemma PublishKeepsOrdered(run: RunId, after: int, s: State)
    requires IsOrdered(run, after, s)
    ensures IsOrdered(run, after, Step(run, s, Publish(0)))
  {
    PublishKeepsSound(run, after, s, Publish(0));
    if |s.due| > 0 {
      var n := s.due[0];
      assert n in s.due;
      var t := Step(run, s, Publish(0));
      if s.phase.Connecting? {
        assert Pending(t) == Pending(s)[1..];
      } else {
        assert Pending(t) == Pending(s);
      }
    }
  }

  lemma ReplayKeepsOrdered(run: RunId, after: int, s: State)
    requires IsOrdered(run, after, s)
    ensures IsOrdered(run, after, Step(run, s, Replay))
  {
    ReplayKeepsSound(run, after, s);
    ReplayContinues(run, s.log, s.live, after, s.conn.sent);
  }

  /** Nothing published lies between the cursor and the oldest pending number. */
  lemma OldestPendingIsNext(run: RunId, after: int, s: State)
    requires IsOrdered(run, after, s) && s.phase.Waiting? && |s.queue| > 0
    ensures forall n | n in s.live && n > s.conn.last :: n >= s.queue[0].number
    ensures Pending(s)[0] == s.queue[0].number
  {
    assert Pending(s)[0] == s.queue[0].number;
    forall n | n in s.live && n > s.conn.last ensures n >= s.queue[0].number {
      assert n in Pending(s);
    }
  }

  lemma DequeueKeepsOrdered(run: RunId, after: int, s: State)
    requires IsOrdered(run, after, s)
    ensures IsOrdered(run, after, Step(run, s, Dequeue))
  {
    DequeueKeepsSound(run, after, s);
    if s.phase.Waiting? && |s.queue| > 0 {
      var f := s.queue[0];
      var t := Step(run, s, Dequeue);
      assert f in s.queue;
      OldestPendingIsNext(run, after, s);
      assert Pending(t) == Pending(s)[1..];
      assert Ascends(Pending(t));
      if f.number > s.conn.last {
        SendOne(run, s.log, s.live, after, s.conn.sent, f);
      }
    }
  }

  lemma StepKeepsOrdered(run: RunId, after: int, s: State, op: Op)
    requires IsOrdered(run, after, s) && (op.Publish? ==> op.index == 0)
    ensures IsOrdered(run, after, Step(run, s, op))
  {
    match op
    case Commit(_, _, _) => CommitKeepsOrdered(run, after, s, op);
    case Publish(_) => PublishKeepsOrdered(run, after, s);
    case Replay => ReplayKeepsOrdered(run, after, s);
    case Dequeue => DequeueKeepsOrdered(run, after, s);
    case _ =>
  }

  /**
   * When events are published in the order they were committed in, an entry that was passed over
   * was never published: nothing the broker announced is lost below the last frame sent.
   */
  lemma {:induction false} OnlyUnpublishedAreSkipped(run: RunId, after: int, s: State, ops: seq<Op>)
    requires IsOrdered(run, after, s) && PublishesInOrder(ops)
    ensures IsOrdered(run, after, Run(run, s, ops))
    decreases |ops|
  {
    if |ops| > 0 {
      StepKeepsOrdered(run, after, s, ops[0]);
      OnlyUnpublishedAreSkipped(run, after, Step(run, s, ops[0]), ops[1..]);
    }
  }

  // -------------------------------------------------------------------------------------------
  // The terminal break
  // -------------------------------------------------------------------------------------------

  predicate IsSent(sent: seq<Frame>, n: nat) {
    exists i :: 0 <= i < |sent| && sent[i].number == n
  }

  lemma {:induction false} SentNumbers(run: RunId, log: seq<Event>, live: set<nat>, after: int, sent: seq<Frame>, n: nat)
    requires IsAscending(run, log, after, sent) && SkipsNone(live, after, sent)
    requires n in live && after < n && 1 <= n
    ensures IsSent(sent, n) <==> n <= LastOf(after, sent)
    decreases |sent|
  {
    if |sent| > 0 {
      var shorter := sent[..|sent| - 1];
      SentNumbers(run, log, live, after, shorter, n);
      if sent[|sent| - 1].number == n {
        assert IsSent(sent, n);
      } else if i :| 0 <= i < |shorter| && shorter[i].number == n {
        assert sent[i].number == n;
      }
      assert IsSent(sent, n) ==> IsSent(shorter, n) || sent[|sent| - 1].number == n;
    }
  }

  /** Everything published above the start cursor was sent. */
  ghost predicate IsComplete(after: int, s: State) {
    forall n | n in s.live && after < n :: IsSent(s.conn.sent, n)
  }

  /** No published event was committed since the events were last read. */
  ghost predicate NothingSinceRead(after: int, s: State) {
    forall n | n in s.live && after < n :: n <= s.read
  }

  /**
   * A connection that stops on a terminal status has sent everything published to it exactly when
   * no published event was committed after its last read of the log. The status is read after the
   * events, so the condition can fail.
   */
  lemma StopIsCompleteIff(run: RunId, after: int, ops: seq<Op>)
    requires PublishesInOrder(ops) && Run(run, Start(after), ops).phase.Done?
    ensures var s := Run(run, Start(after), ops); IsComplete(after, s) <==> NothingSinceRead(after, s)
  {
    var s := Run(run, Start(after), ops);
    OnlyUnpublishedAreSkipped(run, after, Start(after), ops);
    LastIsAnEntry(run, s.log, after, s.conn.sent);
    forall n | n in s.live && after < n ensures IsSent(s.conn.sent, n) <==> n <= s.read {
      SentNumbers(run, s.log, s.live, after, s.conn.sent, n);
    }
  }

  lemma RunTo(run: RunId, s: State, a: Op, t: State, ops: seq<Op>)
    requires Step(run, s, a) == t
    ensures Run(run, s, [a] + ops) == Run(run, t, ops)
    ensures PublishesInOrder([a] + ops) == ((a.Publish? ==> a.index == 0) && PublishesInOrder(ops))
  {
    assert ([a] + ops)[1..] == ops;
  }

  function Connected(): State {
    Start(0).(phase := CheckingStatus)
  }

  lemma ConnectedAfter(run: RunId, ops: seq<Op>)
    ensures Run(run, Start(0), [Subscribe] + ([Replay] + ops)) == Run(run, Connected(), ops)
    ensures PublishesInOrder([Subscribe] + ([Replay] + ops)) == PublishesInOrder(ops)
  {
    var s := Start(0).(phase := Replaying);
    RunTo(run, Start(0), Subscribe, s, [Replay] + ops);
    assert Step(run, s, Replay).conn.sent == [];
    RunTo(run, s, Replay, Connected(), ops);
  }

  /** The event that ends the run is missed when it is committed between the two reads. */
  lemma FinalEventIsMissed(run: RunId, e: Event)
    ensures exists ops :: PublishesInOrder(ops) && var s := Run(run, Start(0), ops);
              s.phase.Done? && s.log == [e] && 1 in s.live && s.conn.sent == []
  {
    var s := Connected();
    var t := s.(log := [e], live := {1}, due := [1], ended := true);
    var u := t.(phase := Done);
    ConnectedAfter(run, [Commit(e, true, true)] + ([CheckStatus] + []));
    RunTo(run, s, Commit(e, true, true), t, [CheckStatus] + []);
    RunTo(run, t, CheckStatus, u, []);
  }

  /** Two events are committed while the loop waits, and it takes the second one when that is published. */
  lemma Waited(run: RunId, d: Event, e: Event, announced: bool) returns (ops: seq<Op>)
    ensures PublishesInOrder(ops) == !announced
    ensures var s := Run(run, Start(0), ops);
            s.log == [d, e] && s.conn.sent == [LiveFrame(run, 2, e)] && (1 in s.live <==> announced)
  {
    var i := if announced then 1 else 0;
    var s := Connected();
    var t := s.(phase := Waiting);
    var u := t.(log := [d], live := if announced then {1} else {}, due := if announced then [1] else []);
    var v := u.(log := [d, e], live := u.live + {2}, due := u.due + [2]);
    var w := v.(queue := [LiveFrame(run, 2, e)], due := u.due);
    var x := w.(queue := [], conn := Conn(2, [LiveFrame(run, 2, e)]), phase := Replaying);
    RunTo(run, w, Dequeue, x, []);
    ops := [Dequeue] + [];
    assert v.due[..i] + v.due[i + 1..] == u.due;
    RunTo(run, v, Publish(i), w, ops);
    ops := [Publish(i)] + ops;
    RunTo(run, u, Commit(e, true, false), v, ops);
    ops := [Commit(e, true, false)] + ops;
    RunTo(run, t, Commit(d, announced, false), u, ops);
    ops := [Commit(d, announced, false)] + ops;
    RunTo(run, s, CheckStatus, t, ops);
    ops := [CheckStatus] + ops;
    ConnectedAfter(run, ops);
    ops := [Subscribe] + ([Replay] + ops);
  }

  // -------------------------------------------------------------------------------------------
  // Entries that are never published
  // -------------------------------------------------------------------------------------------

  /** What is queued or due for this connection was announced as such. */
  predicate FromLive(s: State) {
    && (forall f | f in s.queue :: f.number in s.live)
    && (forall n | n in s.due :: n in s.live)
  }

  lemma StepStaysFromLive(run: RunId, s: State, op: Op)
    requires FromLive(s)
    ensures FromLive(Step(run, s, op)) && s.live <= Step(run, s, op).live
  {
    if op.Publish? && op.index < |s.due| {
      assert s.due[op.index] in s.due;
      forall n | n in s.due[..op.index] + s.due[op.index + 1..] ensures n in s.due {
      }
    }
  }

  lemma {:induction false} LiveGrows(run: RunId, s: State, ops: seq<Op>)
    requires FromLive(s)
    ensures s.live <= Run(run, s, ops).live
    decreases |ops|
  {
    if |ops| > 0 {
      StepStaysFromLive(run, s, ops[0]);
      LiveGrows(run, Step(run, s, ops[0]), ops[1..]);
    }
  }

  lemma SentConcat(a: seq<Frame>, b: seq<Frame>, n: nat)
    ensures IsSent(a + b, n) <==> IsSent(a, n) || IsSent(b, n)
  {
    if i :| 0 <= i < |b| && b[i].number == n {
      assert (a + b)[|a| + i].number == n;
    }
    if i :| 0 <= i < |a| && a[i].number == n {
      assert (a + b)[i].number == n;
    }
  }

  lemma {:induction false} ReplaySends(run: RunId, log: seq<Event>, from: nat, n: nat)
    ensures IsSent(ReplayFrames(run, log, from), n) <==> from < n <= |log|
    decreases |log|
  {
    if from < |log| {
      var f := ReplayFrame(run, |log|, log[|log| - 1]);
      ReplaySends(run, log[..|log| - 1], from, n);
      SentConcat(ReplayFrames(run, log[..|log| - 1], from), [f], n);
      assert [f][0].number == |log|;
    }
  }

  /** Some replay reads the log when it holds entry `n` and nothing from `n` on has been sent. */
  predicate IsReadInTime(run: RunId, s: State, ops: seq<Op>, n: nat)
    decreases |ops|
  {
    |ops| > 0 &&
    (|| (ops[0].Replay? && s.phase.Replaying? && s.conn.last < n <= |s.log|)
     || IsReadInTime(run, Step(run, s, ops[0]), ops[1..], n))
  }

  lemma StepSendsUnpublished(run: RunId, s: State, op: Op, n: nat)
    requires FromLive(s) && 1 <= n && n !in s.live
    ensures IsSent(Step(run, s, op).conn.sent, n)
       <==> IsSent(s.conn.sent, n) || (op.Replay? && s.phase.Replaying? && s.conn.last < n <= |s.log|)
  {
    if op.Replay? && s.phase.Replaying? {
      var from := EventLog.From(s.conn.last);
      SentConcat(s.conn.sent, ReplayFrames(run, s.log, from), n);
      ReplaySends(run, s.log, from, n);
    } else if op.Dequeue? && s.phase.Waiting? && |s.queue| > 0 {
      assert s.queue[0] in s.queue;
      SentConcat(s.conn.sent, [s.queue[0]], n);
    }
  }

  /**
   * Over every schedule, an entry that is never published is sent exactly when a replay reads it
   * before anything that comes after it is sent. Publishing needs no order here.
   */
  lemma {:induction false} UnpublishedIsSentIff(run: RunId, s: State, ops: seq<Op>, n: nat)
    requires FromLive(s) && 1 <= n && n !in Run(run, s, ops).live
    ensures IsSent(Run(run, s, ops).conn.sent, n) <==> IsSent(s.conn.sent, n) || IsReadInTime(run, s, ops, n)
    decreases |ops|
  {
    if |ops| > 0 {
      LiveGrows(run, s, ops);
      StepStaysFromLive(run, s, ops[0]);
      StepSendsUnpublished(run, s, ops[0], n);
      UnpublishedIsSentIff(run, Step(run, s, ops[0]), ops[1..], n);
    }
  }

  /** An interrupt response is committed and never published, so a live event can pass it over. */
  lemma InterruptIsPassedOver(run: RunId, interrupt: Event, e: Event)
    ensures exists ops :: PublishesInOrder(ops) && var s := Run(run, Start(0), ops);
              s.log == [interrupt, e] && s.conn.sent == [LiveFrame(run, 2, e)]
  {
    var ops := Waited(run, interrupt, e, false);
  }

  /** Publishing out of order loses a published event: the later one passes the earlier one over. */
  lemma LatePublishIsPassedOver(run: RunId, d: Event, e: Event)
    ensures exists ops :: var s := Run(run, Start(0), ops);
              s.log == [d, e] && 1 in s.live && s.conn.sent == [LiveFrame(run, 2, e)]
  {
    var ops := Waited(run, d, e, true);
  }
}
