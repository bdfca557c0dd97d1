/**
 * frontend/src/store/canvasHistoryStore.ts: undo and redo over snapshots of the canvas, with the
 * edits of one burst recorded as a single step once a timer runs out.
 *
 * A canvas is its two arrays; their values stand for the references that the store compares.
 */
module CanvasHistory {
  import opened Wrappers

  const MAX_PAST_SNAPSHOTS := 50

  /** The history and the canvas as they stand, and the canvas before the burst that is pending. */
  datatype History<T> = History(past: seq<T>, present: T, future: seq<T>, burst: Option<T>)

  /** [...past, snapshot].slice(-MAX_PAST_SNAPSHOTS) */
  function AppendPastSnapshot<T>(past: seq<T>, snapshot: T): (r: seq<T>)
    ensures |r| == if |past| < MAX_PAST_SNAPSHOTS then |past| + 1 else MAX_PAST_SNAPSHOTS
    ensures r[|r| - 1] == snapshot
  {
    var all := past + [snapshot];
    if |all| <= MAX_PAST_SNAPSHOTS then all else all[|all| - MAX_PAST_SNAPSHOTS..]
  }

  /** A change of the canvas opens a burst, or goes on with the one that is open. */
  function Edited<T(==)>(h: History<T>, canvas: T): History<T> {
    if canvas == h.present then h
    else h.(present := canvas, burst := if h.burst.None? then Some(h.present) else h.burst)
  }

  function Committed<T>(h: History<T>): History<T> {
    if h.burst.None? then h
    else History(AppendPastSnapshot(h.past, h.burst.value), h.present, [], None)
  }

  function Undone<T>(h: History<T>): History<T> {
    if |h.past| == 0 then h
    else History(h.past[..|h.past| - 1], h.past[|h.past| - 1], [h.present] + h.future, None)
  }

  function Redone<T>(h: History<T>): History<T> {
    if |h.future| == 0 then h
    else History(AppendPastSnapshot(h.past, h.present), h.future[0], h.future[1..], None)
  }

  // -------------------------------------------------------------------------------------------
  // The cap
  // -------------------------------------------------------------------------------------------

  datatype Op<T> = Edit(canvas: T) | Commit | Undo | Redo

  function Step<T(==)>(h: History<T>, op: Op<T>): History<T> {
    match op
    case Edit(canvas) => Edited(h, canvas)
    case Commit => Committed(h)
    case Undo => Undone(h)
    case Redo => Redone(h)
  }

  function Run<T(==)>(h: History<T>, ops: seq<Op<T>>): History<T>
    decreases |ops|
  {
    if |ops| == 0 then h else Run(Step(h, ops[0]), ops[1..])
  }

  function Start<T>(canvas: T): History<T> {
    History([], canvas, [], None)
  }

  predicate IsCapped<T>(h: History<T>) {
    |h.past| + |h.future| <= MAX_PAST_SNAPSHOTS
  }

  /** Over every run of edits, commits, undos and redos the two sides never exceed the cap together. */
  lemma {:induction false} HistoryStaysCapped<T>(h: History<T>, ops: seq<Op<T>>)
    requires IsCapped(h)
    ensures IsCapped(Run(h, ops))
    decreases |ops|
  {
    if |ops| > 0 {
      HistoryStaysCapped(Step(h, ops[0]), ops[1..]);
    }
  }

  // -------------------------------------------------------------------------------------------
  // Moving along the timeline
  // -------------------------------------------------------------------------------------------

  function Timeline<T>(h: History<T>): seq<T> {
    h.past + [h.present] + h.future
  }

  lemma UndoKeepsTimeline<T>(h: History<T>)
    ensures Timeline(Undone(h)) == Timeline(h)
  {
    if |h.past| > 0 {
      assert h.past == h.past[..|h.past| - 1] + [h.past[|h.past| - 1]];
    }
  }

  /** Under the cap a redo drops nothing from the far end. */
  lemma RedoKeepsTimeline<T>(h: History<T>)
    requires IsCapped(h)
    ensures Timeline(Redone(h)) == Timeline(h)
  {
    if |h.future| > 0 {
      assert h.future == [h.future[0]] + h.future[1..];
    }
  }

  function Undos<T>(h: History<T>, k: nat): History<T> {
    if k == 0 then h else Undone(Undos(h, k - 1))
  }

  function Redos<T>(h: History<T>, k: nat): History<T> {
    if k == 0 then h else Redone(Redos(h, k - 1))
  }

  lemma {:induction false} UndosAt<T>(h: History<T>, k: nat)
    requires k <= |h.past|
    ensures var u := Undos(h, k);
            && Timeline(u) == Timeline(h) && |u.past| == |h.past| - k && |u.future| == |h.future| + k
            && u.burst == if k == 0 then h.burst else None
    decreases k
  {
    if k > 0 {
      UndosAt(h, k - 1);
      UndoKeepsTimeline(Undos(h, k - 1));
    }
  }

  lemma {:induction false} RedosAt<T>(h: History<T>, k: nat)
    requires k <= |h.future| && IsCapped(h)
    ensures var r := Redos(h, k);
            && Timeline(r) == Timeline(h) && |r.past| == |h.past| + k && |r.future| == |h.future| - k
            && r.burst == if k == 0 then h.burst else None
    decreases k
  {
    if k > 0 {
      RedosAt(h, k - 1);
      RedoKeepsTimeline(Redos(h, k - 1));
    }
  }

  /** The timeline and the position in it determine the two sides and the present. */
  lemma SamePosition<T>(a: History<T>, b: History<T>)
    requires Timeline(a) == Timeline(b) && |a.past| == |b.past|
    ensures a.past == b.past && a.present == b.present && a.future == b.future
  {
    var n := |a.past|;
    assert a.past == Timeline(a)[..n] && b.past == Timeline(b)[..n];
    assert a.present == Timeline(a)[n] && b.present == Timeline(b)[n];
    assert a.future == Timeline(a)[n + 1..] && b.future == Timeline(b)[n + 1..];
  }

  /** As many redos as undos bring back the past, the present and the future exactly. */
  lemma UndosThenRedos<T>(h: History<T>, k: nat)
    requires IsCapped(h) && 0 < k <= |h.past|
    ensures Redos(Undos(h, k), k) == h.(burst := None)
  {
    UndosAt(h, k);
    RedosAt(Undos(h, k), k);
    SamePosition(Redos(Undos(h, k), k), h);
  }

  lemma RedosThenUndos<T>(h: History<T>, k: nat)
    requires IsCapped(h) && 0 < k <= |h.future|
    ensures Undos(Redos(h, k), k) == h.(burst := None)
  {
    RedosAt(h, k);
    UndosAt(Redos(h, k), k);
    SamePosition(Undos(Redos(h, k), k), h);
  }

  /** Once a burst is recorded, one undo goes back to the canvas before it and one redo returns. */
  lemma CommitThenUndo<T>(h: History<T>)
    requires IsCapped(h) && h.burst.Some?
    ensures var u := Undone(Committed(h));
            && u.present == h.burst.value && u.future == [h.present]
            && u.past == (if |h.past| < MAX_PAST_SNAPSHOTS then h.past else h.past[1..])
            && Redone(u) == Committed(h)
  {
    var c := Committed(h);
    UndosThenRedos(c, 1);
    assert Undos(c, 0) == c && Undos(c, 1) == Undone(c);
    assert Redos(Undone(c), 0) == Undone(c) && Redos(Undone(c), 1) == Redone(Undone(c));
  }

  predicate OnlyEdits<T>(ops: seq<Op<T>>) {
    forall i | 0 <= i < |ops| :: ops[i].Edit?
  }

  lemma {:induction false} BurstKeepsStart<T>(h: History<T>, ops: seq<Op<T>>)
    requires OnlyEdits(ops)
    ensures var e := Run(h, ops);
            && e.past == h.past && e.future == h.future
            && (h.burst.Some? ==> e.burst == h.burst)
            && (h.burst.None? ==> e.burst == Some(h.present) || (e.burst.None? && e.present == h.present))
    decreases |ops|
  {
    if |ops| > 0 {
      BurstKeepsStart(Step(h, ops[0]), ops[1..]);
    }
  }

  /**
   * However many changes a burst has, one undo takes all of them back and one redo brings all of them
   * back; a burst that changed nothing is not recorded.
   */
  lemma BurstIsOneStep<T>(h: History<T>, ops: seq<Op<T>>)
    requires IsCapped(h) && h.burst.None? && OnlyEdits(ops)
    ensures var e := Run(h, ops);
            && (e.burst.None? ==> e == h && Committed(e) == h)
            && (e.burst.Some? ==> Undone(Committed(e)).present == h.present
                                  && Redone(Undone(Committed(e))).present == e.present)
  {
    BurstKeepsStart(h, ops);
    var e := Run(h, ops);
    if e.burst.Some? {
      CommitThenUndo(e);
    }
  }

  // -------------------------------------------------------------------------------------------
  // An undo while a burst is pending
  // -------------------------------------------------------------------------------------------

  predicate OnlyMoves<T>(ops: seq<Op<T>>)
    decreases |ops|
  {
    |ops| > 0 ==> (ops[0].Undo? || ops[0].Redo?) && OnlyMoves(ops[1..])
  }

  ghost predicate CanReturnTo<T(!new)>(h: History<T>, canvas: T) {
    exists ops :: OnlyMoves(ops) && Run(h, ops).present == canvas
  }

  lemma {:induction false} MovesStayOnTimeline<T>(h: History<T>, ops: seq<Op<T>>)
    requires IsCapped(h) && OnlyMoves(ops)
    ensures Run(h, ops).present in Timeline(h)
    decreases |ops|
  {
    if |ops| == 0 {
      assert Timeline(h)[|h.past|] == h.present;
    } else {
      UndoKeepsTimeline(h);
      RedoKeepsTimeline(h);
      MovesStayOnTimeline(Step(h, ops[0]), ops[1..]);
    }
  }

  lemma {:induction false} MovesReach<T>(h: History<T>, i: nat) returns (ops: seq<Op<T>>)
    requires IsCapped(h) && i < |Timeline(h)|
    ensures OnlyMoves(ops) && Run(h, ops).present == Timeline(h)[i]
    decreases if i < |h.past| then |h.past| - i else i - |h.past|
  {
    if i == |h.past| {
      ops := [];
    } else {
      var op := if i < |h.past| then Undo else Redo;
      UndoKeepsTimeline(h);
      RedoKeepsTimeline(h);
      var rest := MovesReach(Step(h, op), i);
      ops := [op] + rest;
      assert ops[1..] == rest;
    }
  }

  /** Undo and redo reach exactly the canvases on the timeline. */
  lemma ReturnsToIff<T(!new)>(h: History<T>, canvas: T)
    requires IsCapped(h)
    ensures CanReturnTo(h, canvas) <==> canvas in Timeline(h)
  {
    if CanReturnTo(h, canvas) {
      var ops :| OnlyMoves(ops) && Run(h, ops).present == canvas;
      MovesStayOnTimeline(h, ops);
    }
    if canvas in Timeline(h) {
      var i :| 0 <= i < |Timeline(h)| && Timeline(h)[i] == canvas;
      var ops := MovesReach(h, i);
    }
  }

  /**
   * An undo that finds a burst pending goes past the canvas the burst began from, and that canvas can
   * be returned to only if it was on the timeline for another reason.
   */
  lemma UndoForgetsBurstIff<T(!new)>(h: History<T>)
    requires IsCapped(h) && h.burst.Some? && |h.past| > 0
    ensures CanReturnTo(Undone(h), h.burst.value) <==> h.burst.value in Timeline(h)
  {
    UndoKeepsTimeline(h);
    ReturnsToIff(Undone(h), h.burst.value);
  }

  // -------------------------------------------------------------------------------------------
  // The store
  // -------------------------------------------------------------------------------------------

  datatype Snapshot<N, E> = Snapshot(nodes: N, edges: E)

  class CanvasHistoryStore<N(==), E(==)> {
    var nodes: N
    var edges: E
    var past: seq<Snapshot<N, E>>
    var future: seq<Snapshot<N, E>>
    var applying: bool
    var burstStart: Option<Snapshot<N, E>>

    function View(): History<Snapshot<N, E>>
      reads this
    {
      History(past, Snapshot(nodes, edges), future, burstStart)
    }

    constructor (nodes: N, edges: E)
      ensures View() == Start(Snapshot(nodes, edges)) && !applying
    {
      this.nodes, this.edges := nodes, edges;
      past, future, applying, burstStart := [], [], false, None;
    }

    /** The subscriber: what it is told of while a snapshot is applied is not an edit. */
    method OnChange(before: Snapshot<N, E>)
      modifies this`burstStart
      ensures burstStart ==
        if !old(applying) && before != Snapshot(nodes, edges) && old(burstStart).None? then Some(before) else old(burstStart)
    {
      if applying || before == Snapshot(nodes, edges) {
        return;
      }
      if burstStart.None? {
        burstStart := Some(before);
      }
    }

    method SetNodes(nodes: N)
      modifies this`nodes, this`burstStart
      ensures this.nodes == nodes
      ensures old(applying) ==> burstStart == old(burstStart)
      ensures !old(applying) ==> View() == Edited(old(View()), Snapshot(nodes, edges))
    {
      var before := Snapshot(this.nodes, edges);
      this.nodes := nodes;
      OnChange(before);
    }

    method SetEdges(edges: E)
      modifies this`edges, this`burstStart
      ensures this.edges == edges
      ensures old(applying) ==> burstStart == old(burstStart)
      ensures !old(applying) ==> View() == Edited(old(View()), Snapshot(nodes, edges))
    {
      var before := Snapshot(nodes, this.edges);
      this.edges := edges;
      OnChange(before);
    }

    /** The timer of the burst ran out. */
    method CommitPendingBurst()
      modifies this`past, this`future, this`burstStart
      ensures View() == Committed(old(View()))
    {
      if burstStart.None? {
        return;
      }
      past := AppendPastSnapshot(past, burstStart.value);
      future := [];
      burstStart := None;
    }

    method Undo()
      requires !applying
      modifies this
      ensures !applying && View() == Undone(old(View()))
    {
      if |past| == 0 {
        return;
      }
      burstStart := None;
      var previous := past[|past| - 1];
      var current := Snapshot(nodes, edges);
      applying := true;
      SetNodes(previous.nodes);
      SetEdges(previous.edges);
      past := past[..|past| - 1];
      future := [current] + future;
      applying := false;
    }

    method Redo()
      requires !applying
      modifies this
      ensures !applying && View() == Redone(old(View()))
    {
      if |future| == 0 {
        return;
      }
      burstStart := None;
      var next := future[0];
      var current := Snapshot(nodes, edges);
      applying := true;
      SetNodes(next.nodes);
      SetEdges(next.edges);
      past := AppendPastSnapshot(past, current);
      future := future[1..];
      applying := false;
    }

    method Reset()
      modifies this`past, this`future, this`applying, this`burstStart
      ensures !applying && View() == Start(Snapshot(nodes, edges))
    {
      burstStart := None;
      past, future, applying := [], [], false;
    }
  }
}
