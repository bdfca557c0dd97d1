/**
 * repos/durable_run_repo.py and models/canvas.py: the append-only event log of one run, written by
 * concurrent transactions. A transaction reads the highest number, and commits its event under the
 * next one together with the run's replay cursor; the unique constraint on (run, sequence) makes a
 * conflicting commit roll back whole.
 */
module EventLog {

  datatype Value = Text(text: string) | Number(number: int)

  /** A JSON object; the shape of its values does not matter here. */
  type Payload = map<string, Value>
  datatype Event = Event(eventType: string, payload: Payload)
  type TxId = nat

  /** The committed rows by sequence number, the cursor, and what each open transaction has read. */
  datatype Log = Log(rows: map<nat, Event>, cursor: nat, open: map<TxId, nat>)

  datatype Op =
    | ReadMax(tx: TxId)
    | Commit(tx: TxId, event: Event)
    | Rollback(tx: TxId)

  ghost predicate IsMaxKey(rows: map<nat, Event>, k: nat) {
    (k in rows || (k == 0 && rows == map[])) && forall j | j in rows :: j <= k
  }

  lemma {:induction false} MaxKeyExists(rows: map<nat, Event>)
    ensures exists k :: IsMaxKey(rows, k)
    decreases |rows|
  {
    if rows == map[] {
      assert IsMaxKey(rows, 0);
    } else {
      var j :| j in rows;
      var rest := rows - {j};
      assert rest.Keys == rows.Keys - {j};
      MaxKeyExists(rest);
      var k :| IsMaxKey(rest, k);
      assert forall i | i in rows :: i == j || i in rest;
      assert IsMaxKey(rows, if rest == map[] || k < j then j else k);
    }
  }

  /** coalesce(max(sequence), 0) */
  ghost function MaxKey(rows: map<nat, Event>): (k: nat)
    ensures IsMaxKey(rows, k)
  {
    MaxKeyExists(rows);
    var k: nat :| IsMaxKey(rows, k);
    k
  }

  ghost function NextNumber(rows: map<nat, Event>): nat {
    MaxKey(rows) + 1
  }

  ghost function Appended(rows: map<nat, Event>, event: Event): map<nat, Event> {
    rows[NextNumber(rows) := event]
  }

  ghost function Step(l: Log, op: Op): Log {
    match op
    case ReadMax(tx) => l.(open := l.open[tx := NextNumber(l.rows)])
    case Commit(tx, event) =>
      if tx !in l.open then l
      else
        var n := l.open[tx];
        if n in l.rows then l.(open := l.open - {tx})
        else Log(l.rows[n := event], n, l.open - {tx})
    case Rollback(tx) => l.(open := l.open - {tx})
  }

  ghost function Run(l: Log, ops: seq<Op>): Log
    decreases |ops|
  {
    if |ops| == 0 then l else Run(Step(l, ops[0]), ops[1..])
  }

  /** The log is numbered 1..n without gap, the cursor is n, and no transaction has read past n. */
  ghost predicate IsGapless(l: Log) {
    && (forall k: nat :: k in l.rows <==> 1 <= k <= l.cursor)
    && (forall tx | tx in l.open :: l.open[tx] <= l.cursor + 1)
    && (forall tx | tx in l.open :: 1 <= l.open[tx])
  }

  lemma StepKeepsGapless(l: Log, op: Op)
    requires IsGapless(l)
    ensures IsGapless(Step(l, op))
    ensures forall k | k in l.rows :: k in Step(l, op).rows && Step(l, op).rows[k] == l.rows[k]
    ensures l.cursor <= Step(l, op).cursor <= l.cursor + 1
  {
    if op.ReadMax? {
      var m := MaxKey(l.rows);
      assert IsMaxKey(l.rows, m);
      assert m <= l.cursor;
    }
  }

  /**
   * Over every interleaving of appending transactions, the committed log stays numbered 1..n with
   * the cursor at n, and what was committed is never changed.
   */
  lemma {:induction false} LogStaysGapless(l: Log, ops: seq<Op>)
    requires IsGapless(l)
    ensures IsGapless(Run(l, ops))
    ensures forall k | k in l.rows :: k in Run(l, ops).rows && Run(l, ops).rows[k] == l.rows[k]
    ensures l.cursor <= Run(l, ops).cursor
    decreases |ops|
  {
    if |ops| > 0 {
      StepKeepsGapless(l, ops[0]);
      LogStaysGapless(Step(l, ops[0]), ops[1..]);
    }
  }

  /** A commit is turned away exactly when another one took its number since it read the log. */
  lemma CommitSucceedsIff(l: Log, tx: TxId, event: Event)
    requires IsGapless(l) && tx in l.open
    ensures var after := Step(l, Commit(tx, event));
            if l.open[tx] == l.cursor + 1 then
              after.cursor == l.cursor + 1 && after.rows == l.rows[l.cursor + 1 := event]
            else after.rows == l.rows && after.cursor == l.cursor
  {
  }

  /** The steps of other transactions. */
  ghost predicate AreOthers(ops: seq<Op>, tx: TxId) {
    forall op | op in ops :: op.tx != tx
  }

  lemma {:induction false} OthersKeepRead(l: Log, ops: seq<Op>, tx: TxId)
    requires IsGapless(l) && tx in l.open && AreOthers(ops, tx)
    ensures tx in Run(l, ops).open && Run(l, ops).open[tx] == l.open[tx]
    decreases |ops|
  {
    if |ops| > 0 {
      StepKeepsGapless(l, ops[0]);
      OthersKeepRead(Step(l, ops[0]), ops[1..], tx);
    }
  }

  /**
   * An append, whatever other transactions do between its read and its commit: it stores its event
   * under the next number exactly when none of them committed in between, and else stores nothing.
   */
  lemma AppendSucceedsIff(l: Log, ops: seq<Op>, tx: TxId, event: Event)
    requires IsGapless(l) && AreOthers(ops, tx)
    ensures var before := Run(Step(l, ReadMax(tx)), ops);
            var after := Step(before, Commit(tx, event));
            if before.cursor == l.cursor then
              after.cursor == before.cursor + 1 && after.rows == before.rows[before.cursor + 1 := event]
            else after.rows == before.rows && after.cursor == before.cursor
  {
    var begun := Step(l, ReadMax(tx));
    StepKeepsGapless(l, ReadMax(tx));
    LogStaysGapless(begun, ops);
    OthersKeepRead(begun, ops, tx);
    MaxIsCursor(l);
    CommitSucceedsIff(Run(begun, ops), tx, event);
  }

  lemma MaxIsCursor(l: Log)
    requires IsGapless(l)
    ensures MaxKey(l.rows) == l.cursor
  {
    var m := MaxKey(l.rows);
    assert IsMaxKey(l.rows, m);
    assert m <= l.cursor && (l.cursor > 0 ==> l.cursor in l.rows);
    assert l.cursor == 0 ==> forall k | k in l.rows :: false;
  }

  // -------------------------------------------------------------------------------------------
  // Reading
  // -------------------------------------------------------------------------------------------

  datatype Entry = Entry(sequence: nat, event: Event)

  /** A gapless log as the list of its rows. */
  function EntriesOf(rows: map<nat, Event>, cursor: nat): (s: seq<Entry>)
    requires forall k: nat :: 1 <= k <= cursor ==> k in rows
    ensures |s| == cursor
    ensures forall i | 0 <= i < |s| :: s[i] == Entry(i + 1, rows[i + 1])
  {
    if cursor == 0 then [] else EntriesOf(rows, cursor - 1) + [Entry(cursor, rows[cursor])]
  }

  /** Numbers begin at 1, so a negative cursor is as good as 0. */
  function From(after: int): nat {
    if after < 0 then 0 else after
  }

  /** The rows above `after`, in ascending order, for any table. */
  method ListEvents(rows: map<nat, Event>, after: int) returns (events: seq<Entry>)
    ensures IsListing(rows, after, events)
  {
    events := [];
    var rest := set k | k in rows && k > after;
    while rest != {}
      invariant forall k | k in rest :: k in rows && k > after
      invariant forall i | 0 <= i < |events| :: IsEntryAfter(rows, after, events[i])
      invariant forall i, k | 0 <= i < |events| && k in rest :: events[i].sequence < k
      invariant forall i, j | 0 <= i < j < |events| :: events[i].sequence < events[j].sequence
      invariant forall k | k in rows && k > after :: k in rest || Entry(k, rows[k]) in events
      decreases |rest|
    {
      ghost var first := LeastExists(rest);
      var least :| least in rest && forall k | k in rest :: least <= k;
      events := events + [Entry(least, rows[least])];
      rest := rest - {least};
    }
  }

  lemma {:induction false} LeastExists(s: set<nat>) returns (least: nat)
    requires s != {}
    ensures least in s
    ensures forall k | k in s :: least <= k
    decreases |s|
  {
    var x :| x in s;
    var rest := s - {x};
    if rest == {} {
      assert s == {x};
      least := x;
    } else {
      var y := LeastExists(rest);
      assert forall k | k in s :: k == x || k in rest;
      least := if x < y then x else y;
    }
  }

  predicate IsEntryAfter(rows: map<nat, Event>, after: int, row: Entry) {
    row.sequence in rows && after < row.sequence && row.event == rows[row.sequence]
  }

  /** What ListEvents promises of its result. */
  ghost predicate IsListing(rows: map<nat, Event>, after: int, events: seq<Entry>) {
    && (forall i | 0 <= i < |events| :: IsEntryAfter(rows, after, events[i]))
    && (forall i, j | 0 <= i < j < |events| :: events[i].sequence < events[j].sequence)
    && (forall k | k in rows && k > after :: Entry(k, rows[k]) in events)
  }

  lemma {:induction false} ListedNumbers(l: Log, after: int, events: seq<Entry>, i: nat)
    requires IsGapless(l) && IsListing(l.rows, after, events) && i < |events|
    ensures forall j | 0 <= j <= i :: events[j].sequence == From(after) + j + 1
  {
    if i > 0 {
      ListedNumbers(l, after, events, i - 1);
      assert events[i - 1].sequence < events[i].sequence;
    }
    var k := From(after) + i + 1;
    assert IsEntryAfter(l.rows, after, events[i]);
    assert 1 <= k <= events[i].sequence <= l.cursor;
    assert Entry(k, l.rows[k]) in events;
    var at :| 0 <= at < |events| && events[at] == Entry(k, l.rows[k]);
    assert at <= i;
  }

  lemma ListedEntry(l: Log, after: int, events: seq<Entry>, i: nat)
    requires IsGapless(l) && IsListing(l.rows, after, events) && i < |events|
    ensures From(after) + i + 1 <= l.cursor
    ensures events[i] == Entry(From(after) + i + 1, l.rows[From(after) + i + 1])
  {
    ListedNumbers(l, after, events, i);
    assert IsEntryAfter(l.rows, after, events[i]);
  }

  lemma ListedCount(l: Log, after: int, events: seq<Entry>)
    requires IsGapless(l) && IsListing(l.rows, after, events)
    ensures |events| == if From(after) <= l.cursor then l.cursor - From(after) else 0
  {
    if |events| > 0 {
      ListedEntry(l, after, events, |events| - 1);
    }
    if From(after) < l.cursor {
      assert Entry(l.cursor, l.rows[l.cursor]) in events;
      var at :| 0 <= at < |events| && events[at] == Entry(l.cursor, l.rows[l.cursor]);
      ListedEntry(l, after, events, at);
    }
  }

  /** On a gapless log a listing is one contiguous segment of it. */
  lemma ListedSegment(l: Log, after: int, events: seq<Entry>)
    requires IsGapless(l) && IsListing(l.rows, after, events)
    ensures events == if From(after) <= l.cursor then EntriesOf(l.rows, l.cursor)[From(after)..] else []
  {
    ListedCount(l, after, events);
    forall i | 0 <= i < |events|
      ensures From(after) + i + 1 <= l.cursor && events[i] == EntriesOf(l.rows, l.cursor)[From(after) + i]
    {
      ListedEntry(l, after, events, i);
    }
  }
}
