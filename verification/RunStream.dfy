/**
 * routes/execute.py: the loop that serves one connection, and the clients that reconnect to it; and
 * the broker of background_run_worker.py that feeds its queue.
 */
module RunStream {
  import opened Wrappers
  import EventLog
  import opened EventStream

  // -------------------------------------------------------------------------------------------
  // Reading the log
  // -------------------------------------------------------------------------------------------

  ghost function EventsOf(l: EventLog.Log): (es: seq<Event>)
    requires EventLog.IsGapless(l)
    ensures |es| == l.cursor
  {
    seq(l.cursor, i requires 0 <= i < l.cursor => l.rows[i + 1])
  }

  lemma {:induction false} ReplayAt(run: RunId, log: seq<Event>, from: nat, i: nat)
    requires from + i < |log|
    ensures ReplayFrames(run, log, from)[i] == ReplayFrame(run, from + i + 1, log[from + i])
    decreases |log|
  {
    if from + i + 1 < |log| {
      ReplayAt(run, log[..|log| - 1], from, i);
    }
  }

  lemma ListedFrame(run: RunId, l: EventLog.Log, after: int, events: seq<EventLog.Entry>, i: nat)
    requires EventLog.IsGapless(l) && EventLog.IsListing(l.rows, after, events) && i < |events|
    requires |events| == |ReplayFrames(run, EventsOf(l), EventLog.From(after))|
    ensures ReplayFrame(run, events[i].sequence, events[i].event) == ReplayFrames(run, EventsOf(l), EventLog.From(after))[i]
  {
    EventLog.ListedEntry(l, after, events, i);
    ReplayAt(run, EventsOf(l), EventLog.From(after), i);
  }

  lemma ListedFrames(run: RunId, l: EventLog.Log, after: int, events: seq<EventLog.Entry>, frames: seq<Frame>)
    requires EventLog.IsGapless(l) && EventLog.IsListing(l.rows, after, events)
    requires |frames| == |events|
    requires forall i | 0 <= i < |events| :: frames[i] == ReplayFrame(run, events[i].sequence, events[i].event)
    ensures frames == ReplayFrames(run, EventsOf(l), EventLog.From(after))
  {
    EventLog.ListedCount(l, after, events);
    var replay := ReplayFrames(run, EventsOf(l), EventLog.From(after));
    assert |replay| == |frames|;
    forall i | 0 <= i < |events| ensures frames[i] == replay[i] {
      ListedFrame(run, l, after, events, i);
    }
  }

  /** The events above `after` as the frames of a replay. */
  method GetRunEventsAfter(run: RunId, l: EventLog.Log, after: int) returns (frames: seq<Frame>)
    requires EventLog.IsGapless(l)
    ensures frames == ReplayFrames(run, EventsOf(l), EventLog.From(after))
  {
    var events := EventLog.ListEvents(l.rows, after);
    frames := [];
    for i := 0 to |events|
      invariant |frames| == i
      invariant forall j | 0 <= j < i :: frames[j] == ReplayFrame(run, events[j].sequence, events[j].event)
    {
      frames := frames + [Frame(WithType(events[i].event), events[i].sequence, run)];
    }
    ListedFrames(run, l, after, events, frames);
  }

  // -------------------------------------------------------------------------------------------
  // The loop
  // -------------------------------------------------------------------------------------------

  /**
   * What one turn of the loop meets: the log when it is read, whether the run had ended when its
   * status was read after that, and what the queue gave; nothing on a timeout and when polling.
   */
  datatype Turn = Turn(log: EventLog.Log, ended: bool, live: Option<Frame>)

  ghost predicate AreGapless(turns: seq<Turn>)
    decreases |turns|
  {
    |turns| > 0 ==> EventLog.IsGapless(turns[0].log) && AreGapless(turns[1..])
  }

  ghost function Streamed(run: RunId, turns: seq<Turn>, c: Conn): Conn
    requires AreGapless(turns)
    decreases |turns|
  {
    if |turns| == 0 then c
    else
      var read := AfterReplay(c, run, EventsOf(turns[0].log));
      if turns[0].ended then read
      else
        Streamed(run, turns[1..],
                 if turns[0].live.Some? then AfterLive(read, turns[0].live.value) else read)
  }

  /** The cursor after sending frames one by one. */
  function LastAfter(last: int, fs: seq<Frame>): int
    decreases |fs|
  {
    if |fs| == 0 then last
    else
      var before := LastAfter(last, fs[..|fs| - 1]);
      if before < fs[|fs| - 1].number then fs[|fs| - 1].number else before
  }

  lemma LastAfterOne(last: int, fs: seq<Frame>, f: Frame)
    ensures LastAfter(last, fs + [f])
         == if LastAfter(last, fs) < f.number then f.number else LastAfter(last, fs)
  {
    assert (fs + [f])[..|fs|] == fs;
  }

  lemma {:induction false} ReplayMovesCursor(run: RunId, log: seq<Event>, last: int)
    ensures LastAfter(last, ReplayFrames(run, log, EventLog.From(last))) == AfterAll(last, log)
    decreases |log|
  {
    var from := EventLog.From(last);
    if from < |log| {
      var before := log[..|log| - 1];
      ReplayMovesCursor(run, before, last);
      LastAfterOne(last, ReplayFrames(run, before, from), ReplayFrame(run, |log|, log[|log| - 1]));
    }
  }

  /** max(last_sequence, sequence), frame after frame. */
  method SendAll(frames: seq<Frame>, c: Conn) returns (r: Conn)
    ensures r == Conn(LastAfter(c.last, frames), c.sent + frames)
  {
    var last, sent := c.last, c.sent;
    for i := 0 to |frames|
      invariant sent == c.sent + frames[..i]
      invariant last == LastAfter(c.last, frames[..i])
    {
      assert frames[..i + 1][..i] == frames[..i];
      sent := sent + [frames[i]];
      last := if last < frames[i].number then frames[i].number else last;
    }
    assert frames[..|frames|] == frames;
    r := Conn(last, sent);
  }

  // -------------------------------------------------------------------------------------------
  // What the loop is offered, and what it sends of it
  // -------------------------------------------------------------------------------------------

  /** One turn holds the whole log, and then, while the run goes on, what the queue gave. */
  ghost function OffersOf(run: RunId, turn: Turn): seq<Frame>
    requires EventLog.IsGapless(turn.log)
  {
    ReplayFrames(run, EventsOf(turn.log), 0) + (if !turn.ended && turn.live.Some? then [turn.live.value] else [])
  }

  /** Everything the turns hold until the run has ended. */
  ghost function Offers(run: RunId, turns: seq<Turn>): seq<Frame>
    requires AreGapless(turns)
    decreases |turns|
  {
    if |turns| == 0 then []
    else OffersOf(run, turns[0]) + (if turns[0].ended then [] else Offers(run, turns[1..]))
  }

  /** An offer whose number exceeds the start cursor and every number offered before it. */
  predicate IsRecord(offers: seq<Frame>, after: int, i: nat)
    requires i < |offers|
  {
    after < offers[i].number && forall j | 0 <= j < i :: offers[j].number < offers[i].number
  }

  function Records(offers: seq<Frame>, after: int): seq<Frame>
    decreases |offers|
  {
    if |offers| == 0 then []
    else
      var n := |offers| - 1;
      Records(offers[..n], after) + (if IsRecord(offers, after, n) then [offers[n]] else [])
  }

  lemma {:induction false} CursorIsMaximum(fs: seq<Frame>, last: int, bound: int)
    ensures LastAfter(last, fs) < bound <==> last < bound && forall f | f in fs :: f.number < bound
    decreases |fs|
  {
    if |fs| > 0 {
      var n := |fs| - 1;
      CursorIsMaximum(fs[..n], last, bound);
      assert fs == fs[..n] + [fs[n]];
    }
  }

  lemma OneOffer(offers: seq<Frame>, f: Frame, after: int)
    ensures Records(offers + [f], after)
         == Records(offers, after) + (if LastAfter(after, offers) < f.number then [f] else [])
  {
    var more := offers + [f];
    assert more[..|offers|] == offers;
    CursorIsMaximum(offers, after, f.number);
    assert IsRecord(more, after, |offers|) <==> LastAfter(after, offers) < f.number by {
      assert forall j | 0 <= j < |offers| :: more[j] == offers[j];
    }
  }

  /** The cursor and the frames sent, once all of `offers` were offered. */
  ghost predicate HasSentRecords(c: Conn, offers: seq<Frame>, after: int) {
    c.last == LastAfter(after, offers) && c.sent == Records(offers, after)
  }

  /** Asking for the entries above the cursor gives what sending the records of the whole log gives. */
  lemma {:induction false} ReplaySendsRecords(run: RunId, log: seq<Event>, c: Conn, offers: seq<Frame>, after: int)
    requires HasSentRecords(c, offers, after)
    ensures HasSentRecords(AfterReplay(c, run, log), offers + ReplayFrames(run, log, 0), after)
    decreases |log|
  {
    if |log| == 0 {
      assert offers + [] == offers;
    } else {
      var shorter := log[..|log| - 1];
      var f := ReplayFrame(run, |log|, log[|log| - 1]);
      var before := offers + ReplayFrames(run, shorter, 0);
      ReplaySendsRecords(run, shorter, c, offers, after);
      OneOffer(before, f, after);
      LastAfterOne(after, before, f);
      assert offers + ReplayFrames(run, log, 0) == before + [f];
      OneMoreEntry(run, log, c);
    }
  }

  lemma OneMoreEntry(run: RunId, log: seq<Event>, c: Conn)
    requires |log| > 0
    ensures AfterReplay(c, run, log) == AfterLive(AfterReplay(c, run, log[..|log| - 1]), ReplayFrame(run, |log|, log[|log| - 1]))
  {
    var from := EventLog.From(c.last);
    if from < |log| {
      assert c.sent + (ReplayFrames(run, log[..|log| - 1], from) + [ReplayFrame(run, |log|, log[|log| - 1])])
          == (c.sent + ReplayFrames(run, log[..|log| - 1], from)) + [ReplayFrame(run, |log|, log[|log| - 1])];
    }
  }

  lemma LiveSendsRecords(f: Frame, c: Conn, offers: seq<Frame>, after: int)
    requires HasSentRecords(c, offers, after)
    ensures HasSentRecords(AfterLive(c, f), offers + [f], after)
  {
    OneOffer(offers, f, after);
    LastAfterOne(after, offers, f);
  }

  lemma TurnSendsRecords(run: RunId, turn: Turn, c: Conn, offers: seq<Frame>, after: int)
    requires EventLog.IsGapless(turn.log) && HasSentRecords(c, offers, after)
    ensures var read := AfterReplay(c, run, EventsOf(turn.log));
            HasSentRecords(if !turn.ended && turn.live.Some? then AfterLive(read, turn.live.value) else read,
                           offers + OffersOf(run, turn), after)
  {
    var read := AfterReplay(c, run, EventsOf(turn.log));
    var replay := ReplayFrames(run, EventsOf(turn.log), 0);
    ReplaySendsRecords(run, EventsOf(turn.log), c, offers, after);
    if !turn.ended && turn.live.Some? {
      LiveSendsRecords(turn.live.value, read, offers + replay, after);
      Regroup(offers, replay, [turn.live.value]);
    } else {
      Regroup(offers, replay, []);
      assert (offers + replay) + [] == offers + replay;
    }
  }

  lemma Regroup(a: seq<Frame>, b: seq<Frame>, c: seq<Frame>)
    ensures a + (b + c) == (a + b) + c
  {
  }

  lemma {:induction false} TurnsSendRecords(run: RunId, turns: seq<Turn>, c: Conn, offers: seq<Frame>, after: int)
    requires AreGapless(turns) && HasSentRecords(c, offers, after)
    ensures HasSentRecords(Streamed(run, turns, c), offers + Offers(run, turns), after)
    decreases |turns|
  {
    if |turns| == 0 {
      assert offers + [] == offers;
    } else {
      var turn := turns[0];
      var read := AfterReplay(c, run, EventsOf(turn.log));
      TurnSendsRecords(run, turn, c, offers, after);
      if turn.ended {
        Regroup(offers, OffersOf(run, turn), []);
        assert (offers + OffersOf(run, turn)) + [] == offers + OffersOf(run, turn);
      } else {
        TurnsSendRecords(run, turns[1..], if turn.live.Some? then AfterLive(read, turn.live.value) else read,
                         offers + OffersOf(run, turn), after);
        Regroup(offers, OffersOf(run, turn), Offers(run, turns[1..]));
      }
    }
  }

  /**
   * For any turns, a connection sends exactly those of the frames it is offered that exceed its start
   * cursor and every frame offered before: each live event that is ahead of all, and no other one.
   */
  lemma LoopSendsRecords(run: RunId, turns: seq<Turn>, after: int)
    requires AreGapless(turns)
    ensures Streamed(run, turns, Conn(after, [])).sent == Records(Offers(run, turns), after)
  {
    TurnsSendRecords(run, turns, Conn(after, []), [], after);
    assert [] + Offers(run, turns) == Offers(run, turns);
  }

  /** Of what is offered, exactly the records are sent. */
  lemma {:induction false} RecordsAreExact(offers: seq<Frame>, after: int, f: Frame)
    ensures f in Records(offers, after) <==> exists i :: 0 <= i < |offers| && offers[i] == f && IsRecord(offers, after, i)
    decreases |offers|
  {
    if |offers| > 0 {
      var n := |offers| - 1;
      RecordsAreExact(offers[..n], after, f);
      assert forall i: nat | i < n :: IsRecord(offers, after, i) == IsRecord(offers[..n], after, i);
      if i :| 0 <= i < n && offers[i] == f && IsRecord(offers, after, i) {
        assert offers[..n][i] == f;
      }
    }
  }

  /** The streaming loop, for as many turns as the connection lasts. */
  method StreamRun(run: RunId, turns: seq<Turn>, after: int) returns (c: Conn)
    requires AreGapless(turns)
    ensures c == Streamed(run, turns, Conn(after, []))
    ensures c.sent == Records(Offers(run, turns), after)
  {
    LoopSendsRecords(run, turns, after);
    c := Conn(after, []);
    var rest := turns;
    while |rest| > 0
      invariant AreGapless(rest)
      invariant Streamed(run, rest, c) == Streamed(run, turns, Conn(after, []))
      decreases |rest|
    {
      var turn := rest[0];
      var replay := GetRunEventsAfter(run, turn.log, c.last);
      ReplayMovesCursor(run, EventsOf(turn.log), c.last);
      c := SendAll(replay, c);
      if turn.ended {
        break;
      }
      if turn.live.Some? && turn.live.value.number > c.last {
        c := Conn(turn.live.value.number, c.sent + [turn.live.value]);
      }
      rest := rest[1..];
    }
  }

  /** Every log the connection reads is an earlier state of `log`, and the queue gave entries of it. */
  ghost predicate AreReads(run: RunId, turns: seq<Turn>, log: seq<Event>)
    decreases |turns|
  {
    |turns| > 0 ==>
      && EventLog.IsGapless(turns[0].log)
      && turns[0].log.cursor <= |log| && EventsOf(turns[0].log) == log[..turns[0].log.cursor]
      && (turns[0].live.Some? ==> IsEntry(run, log, turns[0].live.value))
      && AreReads(run, turns[1..], log)
  }

  lemma OneTurnAscends(run: RunId, turn: Turn, log: seq<Event>, after: int, c: Conn)
    requires AreReads(run, [turn], log)
    requires IsAscending(run, log, after, c.sent) && c.last == LastOf(after, c.sent)
    ensures var read := AfterReplay(c, run, EventsOf(turn.log));
            && IsAscending(run, log, after, read.sent) && read.last == LastOf(after, read.sent)
            && (turn.live.Some? ==>
                  var r := AfterLive(read, turn.live.value);
                  IsAscending(run, log, after, r.sent) && r.last == LastOf(after, r.sent))
  {
    assert [turn][0] == turn;
    NoneAreLive(after, c.sent);
    ReplayPrefix(run, log, turn.log.cursor, {}, after, c.sent);
    var read := AfterReplay(c, run, EventsOf(turn.log));
    if turn.live.Some? && turn.live.value.number > read.last {
      NoneAreLive(after, read.sent);
      SendOne(run, log, {}, after, read.sent, turn.live.value);
    }
  }

  /** The loop sends entries of the log in strictly ascending order, whatever the queue hands it. */
  lemma {:induction false} LoopIsAscending(run: RunId, turns: seq<Turn>, log: seq<Event>, after: int, c: Conn)
    requires AreReads(run, turns, log) && AreGapless(turns)
    requires IsAscending(run, log, after, c.sent) && c.last == LastOf(after, c.sent)
    ensures var r := Streamed(run, turns, c); IsAscending(run, log, after, r.sent) && r.last == LastOf(after, r.sent)
    decreases |turns|
  {
    if |turns| > 0 {
      assert [turns[0]][1..] == [];
      OneTurnAscends(run, turns[0], log, after, c);
      var read := AfterReplay(c, run, EventsOf(turns[0].log));
      if !turns[0].ended {
        LoopIsAscending(run, turns[1..], log, after,
                        if turns[0].live.Some? then AfterLive(read, turns[0].live.value) else read);
      }
    }
  }

  // -------------------------------------------------------------------------------------------
  // Polling and reconnecting
  // -------------------------------------------------------------------------------------------

  /** Every log the connection reads is an earlier state of `log`, and no event comes from a queue. */
  ghost predicate ArePolls(turns: seq<Turn>, log: seq<Event>)
    decreases |turns|
  {
    |turns| > 0 ==>
      && EventLog.IsGapless(turns[0].log)
      && turns[0].log.cursor <= |log| && EventsOf(turns[0].log) == log[..turns[0].log.cursor]
      && turns[0].live.None?
      && ArePolls(turns[1..], log)
  }

  lemma {:induction false} PollsAreGapless(turns: seq<Turn>, log: seq<Event>)
    requires ArePolls(turns, log)
    ensures AreGapless(turns)
    decreases |turns|
  {
    if |turns| > 0 {
      PollsAreGapless(turns[1..], log);
    }
  }

  /** Exactly the entries above `after` and up to `last`, in order. */
  function Segment(run: RunId, log: seq<Event>, after: int, last: int): seq<Frame> {
    var end := EventLog.From(last);
    ReplayFrames(run, log[..(if end < |log| then end else |log|)], EventLog.From(after))
  }

  lemma {:induction false} ReplayFramesJoin(run: RunId, log: seq<Event>, from: nat, mid: nat, end: nat)
    requires from <= mid <= end <= |log|
    ensures ReplayFrames(run, log[..mid], from) + ReplayFrames(run, log[..end], mid) == ReplayFrames(run, log[..end], from)
    decreases end
  {
    if mid < end {
      ReplayFramesJoin(run, log, from, mid, end - 1);
      assert log[..end][..end - 1] == log[..end - 1];
    }
  }

  lemma SegmentsJoin(run: RunId, log: seq<Event>, after: int, mid: int, last: int)
    requires after <= mid <= last
    ensures Segment(run, log, after, mid) + Segment(run, log, mid, last) == Segment(run, log, after, last)
  {
    var from, m, end := EventLog.From(after), EventLog.From(mid), EventLog.From(last);
    if end <= |log| {
      ReplayFramesJoin(run, log, from, m, end);
    } else if m <= |log| {
      ReplayFramesJoin(run, log, from, m, |log|);
    }
  }

  function Max(a: nat, b: nat): nat {
    if a < b then b else a
  }

  /** How long the longest log was that the connection read before it stopped. */
  function LongestRead(turns: seq<Turn>): nat
    decreases |turns|
  {
    if |turns| == 0 then 0
    else if turns[0].ended then turns[0].log.cursor
    else Max(turns[0].log.cursor, LongestRead(turns[1..]))
  }

  lemma OnePoll(run: RunId, log: seq<Event>, k: nat, c: Conn)
    requires k <= |log|
    ensures var r := AfterReplay(c, run, log[..k]);
            && c.last <= r.last && r.sent == c.sent + Segment(run, log, c.last, r.last)
            && EventLog.From(r.last) == Max(EventLog.From(c.last), k)
  {
    if EventLog.From(c.last) < k {
      assert log[..(if k < |log| then k else |log|)] == log[..k];
    }
  }

  /**
   * Without a queue a connection sends one contiguous segment of the log, from its start cursor to
   * the end of the longest log it read.
   */
  lemma {:induction false} PollingSendsOneSegment(run: RunId, turns: seq<Turn>, log: seq<Event>, c: Conn)
    requires ArePolls(turns, log) && AreGapless(turns)
    ensures var r := Streamed(run, turns, c);
            && c.last <= r.last && r.sent == c.sent + Segment(run, log, c.last, r.last)
            && EventLog.From(r.last) == Max(EventLog.From(c.last), LongestRead(turns))
    decreases |turns|
  {
    if |turns| == 0 {
      SegmentIsEmpty(run, log, c.last);
    } else {
      var read := AfterReplay(c, run, EventsOf(turns[0].log));
      OnePoll(run, log, turns[0].log.cursor, c);
      if !turns[0].ended {
        PollingSendsOneSegment(run, turns[1..], log, read);
        SegmentsJoin(run, log, c.last, read.last, Streamed(run, turns, c).last);
      }
    }
  }

  lemma SegmentIsEmpty(run: RunId, log: seq<Event>, last: int)
    ensures Segment(run, log, last, last) == []
  {
  }

  ghost predicate AllPoll(connections: seq<seq<Turn>>, log: seq<Event>)
    decreases |connections|
  {
    |connections| > 0 ==>
      ArePolls(connections[0], log) && AreGapless(connections[0]) && AllPoll(connections[1..], log)
  }

  /** A client that comes back with the last number it was sent: all it was sent, and its cursor. */
  ghost function Reconnected(run: RunId, connections: seq<seq<Turn>>, log: seq<Event>, after: int): Conn
    requires AllPoll(connections, log)
    decreases |connections|
  {
    if |connections| == 0 then Conn(after, [])
    else
      var first := Streamed(run, connections[0], Conn(after, []));
      var rest := Reconnected(run, connections[1..], log, first.last);
      Conn(rest.last, first.sent + rest.sent)
  }

  lemma FirstConnection(run: RunId, turns: seq<Turn>, log: seq<Event>, after: int)
    requires ArePolls(turns, log) && AreGapless(turns)
    ensures var r := Streamed(run, turns, Conn(after, [])); after <= r.last && r.sent == Segment(run, log, after, r.last)
  {
    PollingSendsOneSegment(run, turns, log, Conn(after, []));
  }

  /** However often a polling client reconnects, it is sent one segment with no gap and no repeat. */
  lemma {:induction false} ReconnectsSendOneSegment(run: RunId, connections: seq<seq<Turn>>, log: seq<Event>, after: int)
    requires AllPoll(connections, log)
    ensures var r := Reconnected(run, connections, log, after);
            after <= r.last && r.sent == Segment(run, log, after, r.last)
    decreases |connections|
  {
    if |connections| == 0 {
      SegmentIsEmpty(run, log, after);
    } else {
      var first := Streamed(run, connections[0], Conn(after, []));
      FirstConnection(run, connections[0], log, after);
      ReconnectsSendOneSegment(run, connections[1..], log, first.last);
      var rest := Reconnected(run, connections[1..], log, first.last);
      SegmentsJoin(run, log, after, first.last, rest.last);
    }
  }

  // -------------------------------------------------------------------------------------------
  // The broker
  // -------------------------------------------------------------------------------------------

  class EventQueue {
    var items: seq<Frame>

    constructor ()
      ensures items == []
    {
      items := [];
    }

    method PutNowait(f: Frame)
      modifies this
      ensures items == old(items) + [f]
    {
      items := items + [f];
    }

    /** The oldest item, or nothing after the timeout. */
    method Get() returns (f: Option<Frame>)
      modifies this
      ensures if |old(items)| == 0 then f.None? && items == []
              else f == Some(old(items)[0]) && items == old(items)[1..]
    {
      if |items| == 0 {
        return None;
      }
      f := Some(items[0]);
      items := items[1..];
    }
  }

  class RunEventBroker {
    var subscribers: map<RunId, set<EventQueue>>

    constructor ()
      ensures subscribers == map[]
    {
      subscribers := map[];
    }

    function SubscribersOf(run: RunId): set<EventQueue>
      reads this
    {
      if run in subscribers then subscribers[run] else {}
    }

    /** A new, empty queue that nobody else holds. */
    method Subscribe(run: RunId) returns (q: EventQueue)
      modifies this
      ensures fresh(q) && q.items == []
      ensures subscribers == old(subscribers)[run := old(SubscribersOf(run)) + {q}]
    {
      q := new EventQueue();
      subscribers := subscribers[run := SubscribersOf(run) + {q}];
    }

    /** A run nobody follows any more is forgotten. */
    method Unsubscribe(run: RunId, q: EventQueue)
      modifies this
      ensures SubscribersOf(run) == old(SubscribersOf(run)) - {q}
      ensures old(SubscribersOf(run)) == {q} ==> run !in subscribers
      ensures forall other | other != run :: SubscribersOf(other) == old(SubscribersOf(other))
    {
      var current := SubscribersOf(run);
      if current == {} {
        return;
      }
      if current - {q} == {} {
        subscribers := subscribers - {run};
      } else {
        subscribers := subscribers[run := current - {q}];
      }
    }

    /** Every subscriber of the run is handed the event once, behind what it already holds. */
    method Publish(run: RunId, f: Frame)
      modifies SubscribersOf(run)
      ensures forall q | q in old(SubscribersOf(run)) :: q.items == old(q.items) + [f]
    {
      var all := SubscribersOf(run);
      var rest := all;
      while rest != {}
        invariant rest <= all
        invariant forall q | q in rest :: q.items == old(q.items)
        invariant forall q | q in all - rest :: q.items == old(q.items) + [f]
        modifies all
        decreases |rest|
      {
        var q :| q in rest;
        q.PutNowait(f);
        rest := rest - {q};
      }
    }
  }
}
