/**
 * What the editor lets a user draw (frontend/src/lib/canvasConnectionRules.ts, CanvasView.tsx), how
 * it deletes (frontend/src/lib/nodeDeletion.ts), and what the server accepts
 * (backend/src/canvas_server/models/api.py).
 */
module CanvasRules {
  import opened Wrappers
  import opened CanvasCodec
  import CanvasHistory

  // -------------------------------------------------------------------------------------------
  // The client's rules
  // -------------------------------------------------------------------------------------------

  datatype Kind = AgentKind | ToolKind | AttachmentKind | UnknownKind

  function KindOf(n: Node): Kind {
    match n
    case Agent(_, _, _) => AgentKind
    case Tool(_, _, _) => ToolKind
    case Attachment(_, _, _) => AttachmentKind
    case Unknown(_, _) => UnknownKind
  }

  predicate IsValidNodeTypeConnection(source: Kind, target: Kind) {
    || (source.AgentKind? && target.ToolKind?)
    || (source.AgentKind? && target.AgentKind?)
    || (source.AgentKind? && target.AttachmentKind?)
    || (source.AttachmentKind? && target.AgentKind?)
  }

  function DeriveEdgeType(source: Kind, target: Kind): EdgeType {
    if source.AgentKind? && target.AgentKind? then Handoff
    else if source.AgentKind? && target.AttachmentKind? then Produces
    else if source.AttachmentKind? && target.AgentKind? then Consumes
    else ToolAccess
  }

  /** What an edge of each type goes from and to; an unknown type goes nowhere. */
  function EndsOf(t: EdgeType): Option<(Kind, Kind)> {
    match t
    case Handoff => Some((AgentKind, AgentKind))
    case ToolAccess => Some((AgentKind, ToolKind))
    case Produces => Some((AgentKind, AttachmentKind))
    case Consumes => Some((AttachmentKind, AgentKind))
    case Other(_) => None
  }

  /**
   * A connection may be drawn, and has this type, exactly when its ends are those of the type: agents
   * hand off to agents and use tools, and attachments are produced and consumed by agents. Nothing
   * else may be drawn.
   */
  lemma LegalPairsIff(source: Kind, target: Kind, t: EdgeType)
    ensures IsValidNodeTypeConnection(source, target) && DeriveEdgeType(source, target) == t
       <==> EndsOf(t) == Some((source, target))
    ensures IsValidNodeTypeConnection(source, target) <==> exists u :: EndsOf(u) == Some((source, target))
  {
    if IsValidNodeTypeConnection(source, target) {
      assert EndsOf(DeriveEdgeType(source, target)) == Some((source, target));
    }
  }

  /** nodes.find((n) => n.id === id)?.type */
  function FindKind(nodes: seq<Node>, id: Id): Option<Kind>
    decreases |nodes|
  {
    if |nodes| == 0 then None
    else if nodes[0].id == id then Some(KindOf(nodes[0]))
    else FindKind(nodes[1..], id)
  }

  /** A connection to a node that is not on the canvas is not turned away. */
  predicate IsValidConnection(c: Canvas, source: Id, target: Id) {
    && |source| > 0 && |target| > 0 && source != target
    && var s, t := FindKind(c.nodes, source), FindKind(c.nodes, target);
       s.None? || t.None? || IsValidNodeTypeConnection(s.value, t.value)
  }

  function DrawnEdge(c: Canvas, source: Id, target: Id, id: Id): Edge {
    var t := DeriveEdgeType(FindKind(c.nodes, source).GetOr(UnknownKind), FindKind(c.nodes, target).GetOr(UnknownKind));
    Edge(id, source, target, EdgeHandles(t).0, EdgeHandles(t).1, Some(t))
  }

  // -------------------------------------------------------------------------------------------
  // Editing
  // -------------------------------------------------------------------------------------------

  function KeptNodes(nodes: seq<Node>, ids: set<Id>): seq<Node>
    decreases |nodes|
  {
    if |nodes| == 0 then []
    else (if nodes[0].id in ids then [] else [nodes[0]]) + KeptNodes(nodes[1..], ids)
  }

  function KeptEdges(edges: seq<Edge>, ids: set<Id>): seq<Edge>
    decreases |edges|
  {
    if |edges| == 0 then []
    else (if edges[0].source in ids || edges[0].target in ids then [] else [edges[0]]) + KeptEdges(edges[1..], ids)
  }

  function Deleted(c: Canvas, ids: set<Id>): Canvas {
    Canvas(KeptNodes(c.nodes, ids), KeptEdges(c.edges, ids))
  }

  /** A changed form of a node, in its place. */
  function Replaced(nodes: seq<Node>, n: Node): seq<Node>
    decreases |nodes|
  {
    if |nodes| == 0 then []
    else [if nodes[0].id == n.id && KindOf(nodes[0]) == KindOf(n) then n else nodes[0]] + Replaced(nodes[1..], n)
  }

  function WithoutEdge(edges: seq<Edge>, id: Id): seq<Edge>
    decreases |edges|
  {
    if |edges| == 0 then []
    else (if edges[0].id == id then [] else [edges[0]]) + WithoutEdge(edges[1..], id)
  }

  /** addEdge appends a drawn edge, or leaves the edges as they are where it finds it drawn already. */
  datatype Action =
    | AddNode(node: Node)
    | ChangeNode(node: Node)
    | Connect(source: Id, target: Id, id: Id, appends: bool)
    | RemoveEdge(id: Id)
    | Delete(ids: set<Id>)
    | Clear

  /** New nodes have new ids. */
  function Apply(c: Canvas, a: Action): Canvas {
    match a
    case AddNode(n) => if FindKind(c.nodes, n.id).Some? then c else c.(nodes := c.nodes + [n])
    case ChangeNode(n) => c.(nodes := Replaced(c.nodes, n))
    case Connect(s, t, id, appends) =>
      if IsValidConnection(c, s, t) && appends then c.(edges := c.edges + [DrawnEdge(c, s, t, id)]) else c
    case RemoveEdge(id) => c.(edges := WithoutEdge(c.edges, id))
    case Delete(ids) => Deleted(c, ids)
    case Clear => Canvas([], [])
  }

  /** An edge between two nodes of the canvas that the rules let connect, typed and anchored by them. */
  predicate IsDrawn(nodes: seq<Node>, e: Edge) {
    var s, t := FindKind(nodes, e.source), FindKind(nodes, e.target);
    && e.source != e.target
    && s.Some? && t.Some? && IsValidNodeTypeConnection(s.value, t.value)
    && e.edgeType == Some(DeriveEdgeType(s.value, t.value))
    && e.sourceHandle == EdgeHandles(e.edgeType.value).0 && e.targetHandle == EdgeHandles(e.edgeType.value).1
  }

  predicate HasUniqueIds(nodes: seq<Node>)
    decreases |nodes|
  {
    |nodes| > 0 ==> FindKind(nodes[1..], nodes[0].id).None? && HasUniqueIds(nodes[1..])
  }

  predicate IsSound(c: Canvas) {
    && HasUniqueIds(c.nodes)
    && forall e | e in c.edges :: IsDrawn(c.nodes, e)
  }

  lemma {:induction false} FindAppended(nodes: seq<Node>, n: Node, id: Id)
    ensures FindKind(nodes + [n], id) ==
            if FindKind(nodes, id).Some? then FindKind(nodes, id) else if n.id == id then Some(KindOf(n)) else None
    decreases |nodes|
  {
    if |nodes| > 0 {
      FindAppended(nodes[1..], n, id);
      assert (nodes + [n])[1..] == nodes[1..] + [n];
    }
  }

  lemma {:induction false} AppendedIsUnique(nodes: seq<Node>, n: Node)
    requires HasUniqueIds(nodes) && FindKind(nodes, n.id).None?
    ensures HasUniqueIds(nodes + [n])
    decreases |nodes|
  {
    if |nodes| > 0 {
      AppendedIsUnique(nodes[1..], n);
      FindAppended(nodes[1..], n, nodes[0].id);
      assert (nodes + [n])[1..] == nodes[1..] + [n];
    }
  }

  lemma {:induction false} FindKept(nodes: seq<Node>, ids: set<Id>, id: Id)
    ensures FindKind(KeptNodes(nodes, ids), id) == if id in ids then None else FindKind(nodes, id)
    decreases |nodes|
  {
    if |nodes| > 0 {
      FindKept(nodes[1..], ids, id);
      if nodes[0].id in ids {
        assert KeptNodes(nodes, ids) == KeptNodes(nodes[1..], ids);
      } else {
        assert KeptNodes(nodes, ids)[1..] == KeptNodes(nodes[1..], ids);
      }
    }
  }

  lemma {:induction false} KeptIsUnique(nodes: seq<Node>, ids: set<Id>)
    requires HasUniqueIds(nodes)
    ensures HasUniqueIds(KeptNodes(nodes, ids))
    decreases |nodes|
  {
    if |nodes| > 0 {
      KeptIsUnique(nodes[1..], ids);
      FindKept(nodes[1..], ids, nodes[0].id);
      if nodes[0].id in ids {
        assert KeptNodes(nodes, ids) == KeptNodes(nodes[1..], ids);
      } else {
        assert KeptNodes(nodes, ids)[1..] == KeptNodes(nodes[1..], ids);
      }
    }
  }

  lemma {:induction false} FindReplaced(nodes: seq<Node>, n: Node, id: Id)
    ensures FindKind(Replaced(nodes, n), id) == FindKind(nodes, id)
    decreases |nodes|
  {
    if |nodes| > 0 {
      FindReplaced(nodes[1..], n, id);
      assert Replaced(nodes, n)[1..] == Replaced(nodes[1..], n);
    }
  }

  lemma {:induction false} ReplacedIsUnique(nodes: seq<Node>, n: Node)
    requires HasUniqueIds(nodes)
    ensures HasUniqueIds(Replaced(nodes, n))
    decreases |nodes|
  {
    if |nodes| > 0 {
      ReplacedIsUnique(nodes[1..], n);
      FindReplaced(nodes[1..], n, nodes[0].id);
      assert Replaced(nodes, n)[1..] == Replaced(nodes[1..], n);
    }
  }

  /** A deletion takes away exactly the edges that touch a deleted node. */
  lemma {:induction false} DeletionCutsExactly(edges: seq<Edge>, ids: set<Id>, e: Edge)
    ensures e in KeptEdges(edges, ids) <==> e in edges && e.source !in ids && e.target !in ids
    decreases |edges|
  {
    if |edges| > 0 {
      DeletionCutsExactly(edges[1..], ids, e);
      assert e in edges <==> e == edges[0] || e in edges[1..];
    }
  }

  /** Node by node, in order, so that what stays keeps its place. */
  lemma {:induction false} DeletionKeepsOrder(a: seq<Node>, n: Node, b: seq<Node>, ids: set<Id>)
    ensures KeptNodes(a + [n] + b, ids) == KeptNodes(a, ids) + (if n.id in ids then [] else [n]) + KeptNodes(b, ids)
    decreases |a|
  {
    var all := a + [n] + b;
    if |a| == 0 {
      assert all[0] == n && all[1..] == b;
    } else {
      assert all[0] == a[0] && all[1..] == a[1..] + [n] + b;
      DeletionKeepsOrder(a[1..], n, b, ids);
    }
  }

  /** A changed node stands where the old one stood, and every other node is as it was. */
  lemma {:induction false} ChangeIsInPlace(nodes: seq<Node>, n: Node, i: nat)
    requires i < |nodes|
    ensures |Replaced(nodes, n)| == |nodes|
    ensures Replaced(nodes, n)[i] == if nodes[i].id == n.id && KindOf(nodes[i]) == KindOf(n) then n else nodes[i]
    decreases |nodes|
  {
    if |nodes| > 1 {
      ChangeIsInPlace(nodes[1..], n, if i > 0 then i - 1 else 0);
    }
  }

  lemma {:induction false} WithoutEdgeIn(edges: seq<Edge>, id: Id, e: Edge)
    ensures e in WithoutEdge(edges, id) <==> e in edges && e.id != id
    decreases |edges|
  {
    if |edges| > 0 {
      WithoutEdgeIn(edges[1..], id, e);
      assert e in edges <==> e == edges[0] || e in edges[1..];
    }
  }

  lemma AddKeepsSound(c: Canvas, n: Node)
    requires IsSound(c) && FindKind(c.nodes, n.id).None?
    ensures IsSound(c.(nodes := c.nodes + [n]))
  {
    AppendedIsUnique(c.nodes, n);
    forall e | e in c.edges ensures IsDrawn(c.nodes + [n], e) {
      FindAppended(c.nodes, n, e.source);
      FindAppended(c.nodes, n, e.target);
    }
  }

  lemma ChangeKeepsSound(c: Canvas, n: Node)
    requires IsSound(c)
    ensures IsSound(c.(nodes := Replaced(c.nodes, n)))
  {
    ReplacedIsUnique(c.nodes, n);
    forall e | e in c.edges ensures IsDrawn(Replaced(c.nodes, n), e) {
      FindReplaced(c.nodes, n, e.source);
      FindReplaced(c.nodes, n, e.target);
    }
  }

  lemma DeleteKeepsSound(c: Canvas, ids: set<Id>)
    requires IsSound(c)
    ensures IsSound(Deleted(c, ids))
  {
    KeptIsUnique(c.nodes, ids);
    forall e | e in KeptEdges(c.edges, ids) ensures IsDrawn(KeptNodes(c.nodes, ids), e) {
      DeletionCutsExactly(c.edges, ids, e);
      FindKept(c.nodes, ids, e.source);
      FindKept(c.nodes, ids, e.target);
    }
  }

  lemma RemoveEdgeKeepsSound(c: Canvas, id: Id)
    requires IsSound(c)
    ensures IsSound(c.(edges := WithoutEdge(c.edges, id)))
  {
    forall e | e in WithoutEdge(c.edges, id) ensures IsDrawn(c.nodes, e) {
      WithoutEdgeIn(c.edges, id, e);
    }
  }

  lemma DrawnEdgeIsDrawn(c: Canvas, source: Id, target: Id, id: Id)
    requires IsValidConnection(c, source, target)
    ensures IsDrawn(c.nodes, DrawnEdge(c, source, target, id))
       <==> FindKind(c.nodes, source).Some? && FindKind(c.nodes, target).Some?
  {
  }

  /**
   * A connection that passes the drag-time check keeps the canvas sound exactly when both of its
   * ends are nodes of the canvas; the check lets an unknown end through.
   */
  lemma ConnectKeepsSoundIff(c: Canvas, source: Id, target: Id, id: Id)
    requires IsSound(c) && IsValidConnection(c, source, target)
    ensures IsSound(Apply(c, Connect(source, target, id, true)))
       <==> FindKind(c.nodes, source).Some? && FindKind(c.nodes, target).Some?
  {
    var e := DrawnEdge(c, source, target, id);
    DrawnEdgeIsDrawn(c, source, target, id);
    var after := Apply(c, Connect(source, target, id, true));
    assert after.nodes == c.nodes && after.edges == c.edges + [e];
    assert after.edges[|c.edges|] == e;
    forall f | f in after.edges ensures f == e || IsDrawn(c.nodes, f) {
      assert f == e || f in c.edges;
    }
  }

  // -------------------------------------------------------------------------------------------
  // Every run of the editor
  // -------------------------------------------------------------------------------------------

  type Editor = CanvasHistory.History<Canvas>

  datatype Op = Act(action: Action) | CommitBurst | Undo | Redo

  /** Both ends of a new connection are nodes, as what can be dragged from and to are their anchors. */
  predicate IsDraggable(c: Canvas, a: Action) {
    a.Connect? ==> FindKind(c.nodes, a.source).Some? && FindKind(c.nodes, a.target).Some?
  }

  function Step(h: Editor, op: Op): Editor {
    match op
    case Act(a) => CanvasHistory.Edited(h, if IsDraggable(h.present, a) then Apply(h.present, a) else h.present)
    case CommitBurst => CanvasHistory.Committed(h)
    case Undo => CanvasHistory.Undone(h)
    case Redo => CanvasHistory.Redone(h)
  }

  function Run(h: Editor, ops: seq<Op>): Editor
    decreases |ops|
  {
    if |ops| == 0 then h else Run(Step(h, ops[0]), ops[1..])
  }

  predicate AreSound(cs: seq<Canvas>) {
    forall c | c in cs :: IsSound(c)
  }

  /** The canvas, and every canvas an undo or a redo can bring back. */
  predicate AllSound(h: Editor) {
    && AreSound(h.past) && IsSound(h.present) && AreSound(h.future)
    && (h.burst.Some? ==> IsSound(h.burst.value))
  }

  lemma ApplyKeepsSound(c: Canvas, a: Action)
    requires IsSound(c) && IsDraggable(c, a)
    ensures IsSound(Apply(c, a))
  {
    match a
    case AddNode(n) => if FindKind(c.nodes, n.id).None? { AddKeepsSound(c, n); }
    case ChangeNode(n) => ChangeKeepsSound(c, n);
    case Connect(s, t, id, appends) => if IsValidConnection(c, s, t) { ConnectKeepsSoundIff(c, s, t, id); }
    case RemoveEdge(id) => RemoveEdgeKeepsSound(c, id);
    case Delete(ids) => DeleteKeepsSound(c, ids);
    case Clear =>
  }

  lemma AppendKeepsSound(past: seq<Canvas>, c: Canvas)
    requires AreSound(past) && IsSound(c)
    ensures AreSound(CanvasHistory.AppendPastSnapshot(past, c))
  {
    forall d | d in CanvasHistory.AppendPastSnapshot(past, c) ensures IsSound(d) {
      assert d in past + [c];
    }
  }

  lemma StepKeepsAllSound(h: Editor, op: Op)
    requires AllSound(h)
    ensures AllSound(Step(h, op))
  {
    match op
    case Act(a) => if IsDraggable(h.present, a) { ApplyKeepsSound(h.present, a); }
    case CommitBurst => if h.burst.Some? { AppendKeepsSound(h.past, h.burst.value); }
    case Undo =>
    case Redo => AppendKeepsSound(h.past, h.present);
  }

  /** Over every run of the editor each canvas, and each one undo and redo can show, is sound. */
  lemma {:induction false} EditorStaysSound(h: Editor, ops: seq<Op>)
    requires AllSound(h)
    ensures AllSound(Run(h, ops))
    decreases |ops|
  {
    if |ops| > 0 {
      StepKeepsAllSound(h, ops[0]);
      EditorStaysSound(Step(h, ops[0]), ops[1..]);
    }
  }

  // -------------------------------------------------------------------------------------------
  // The server's rules
  // -------------------------------------------------------------------------------------------

  datatype WiringError = AttachmentToAttachment | AttachmentToTool | NotAnAgent | WrongEdgeType(expected: EdgeType)

  datatype NodeIds = NodeIds(agents: set<Id>, tools: set<Id>, attachments: set<Id>)

  function IdsOf(p: Payload): NodeIds {
    NodeIds(set r | r in p.agents :: r.id, set r | r in p.tools :: r.id, set r | r in p.attachments :: r.id)
  }

  function EdgeError(e: EdgeRow, ids: NodeIds): Option<WiringError> {
    var fromAttachment, toAttachment := e.source in ids.attachments, e.target in ids.attachments;
    if !fromAttachment && !toAttachment then None
    else if fromAttachment && toAttachment then Some(AttachmentToAttachment)
    else if e.source in ids.tools || e.target in ids.tools then Some(AttachmentToTool)
    else if (if fromAttachment then e.target else e.source) !in ids.agents then Some(NotAnAgent)
    else
      var expected := if fromAttachment then Consumes else Produces;
      if e.edgeType != expected then Some(WrongEdgeType(expected)) else None
  }

  /** validate_attachment_edge_wiring: the first edge that is wired wrongly, if any. */
  method ValidateWiring(p: Payload) returns (r: Option<(Id, WiringError)>)
    ensures r.None? <==> IsAccepted(p)
    ensures r.Some? ==> exists i :: 0 <= i < |p.edges| && EdgeError(p.edges[i], IdsOf(p)) == Some(r.value.1)
                                    && p.edges[i].id == r.value.0 && NoErrorBefore(p, i)
  {
    var ids := IdsOf(p);
    for i := 0 to |p.edges|
      invariant NoErrorBefore(p, i)
    {
      var error := EdgeError(p.edges[i], ids);
      if error.Some? {
        return Some((p.edges[i].id, error.value));
      }
    }
    r := None;
  }

  predicate NoErrorBefore(p: Payload, n: nat)
    requires n <= |p.edges|
  {
    forall i | 0 <= i < n :: EdgeError(p.edges[i], IdsOf(p)).None?
  }

  predicate IsAccepted(p: Payload) {
    NoErrorBefore(p, |p.edges|)
  }

  // -------------------------------------------------------------------------------------------
  // The server's defaults
  // -------------------------------------------------------------------------------------------

  const SERVER_MODEL := "ollama:llama3.1"
  const SERVER_AGENT_TYPE := "worker"
  const SERVER_CHUNK_SIZE := 1000
  const SERVER_TOP_K := 5

  /** What the request models make of a node that was sent with these fields only. */
  function ServerAgent(id: Id, p: Position, d: AgentData): AgentRow {
    AgentRow(id, d.name.GetOr("Agent"), d.role.GetOr([]), d.instructions.GetOr([]), d.modelName.GetOr(SERVER_MODEL),
             d.agentType.GetOr(SERVER_AGENT_TYPE), d.enablePlotting == Some(true), d.enableCoding == Some(true),
             d.enableNetwork == Some(true), d.enableMemory == Some(true), d.enableConversationHistory == Some(true),
             d.enableRag == Some(true), d.ragChunkSize.GetOr(SERVER_CHUNK_SIZE), d.ragTopK.GetOr(SERVER_TOP_K),
             d.isEntryPoint == Some(true), d.enableHitl == Some(true), p)
  }

  function ServerTool(id: Id, p: Position, d: ToolData): ToolRow {
    ToolRow(id, d.name.GetOr("Tool"), d.code.GetOr([]), d.packages.GetOr([]), d.args.GetOr([]),
            d.requiresApproval == Some(true), d.mcpServerId, d.mcpTools.GetOr([]), d.mcpSeenTools.GetOr([]), p)
  }

  function ServerAttachment(id: Id, p: Position, d: AttachmentData): AttachmentRow {
    AttachmentRow(id, d.name.GetOr("Attachment"), d.fileType.GetOr("text"), d.deliveryMethod.GetOr("inline"),
                  d.description.GetOr([]), p)
  }

  /** What the editor fills in for a missing field is what the server would have filled in. */
  lemma DefaultsAgree(id: Id, p: Position, a: AgentData, t: ToolData, x: AttachmentData)
    ensures EncodeAgent(id, p, a) == ServerAgent(id, p, a)
    ensures EncodeTool(id, p, t) == ServerTool(id, p, t)
    ensures EncodeAttachment(id, p, x) == ServerAttachment(id, p, x)
  {
    assert EMPTY == [];
  }

  // -------------------------------------------------------------------------------------------
  // Client and server agree
  // -------------------------------------------------------------------------------------------

  lemma {:induction false} AgentIdIff(nodes: seq<Node>, id: Id)
    requires HasUniqueIds(nodes)
    ensures (exists r :: r in AgentRows(nodes) && r.id == id) <==> FindKind(nodes, id) == Some(AgentKind)
    decreases |nodes|
  {
    if |nodes| > 0 {
      AgentIdIff(nodes[1..], id);
      assert forall r :: r in AgentRows(nodes) <==> r in AgentRowOf(nodes[0]) || r in AgentRows(nodes[1..]);
      if nodes[0].Agent? {
        assert EncodeAgent(nodes[0].id, nodes[0].position, nodes[0].agent) in AgentRowOf(nodes[0]);
      }
    }
  }

  lemma {:induction false} ToolIdIff(nodes: seq<Node>, id: Id)
    requires HasUniqueIds(nodes)
    ensures (exists r :: r in ToolRows(nodes) && r.id == id) <==> FindKind(nodes, id) == Some(ToolKind)
    decreases |nodes|
  {
    if |nodes| > 0 {
      ToolIdIff(nodes[1..], id);
      assert forall r :: r in ToolRows(nodes) <==> r in ToolRowOf(nodes[0]) || r in ToolRows(nodes[1..]);
      if nodes[0].Tool? {
        assert EncodeTool(nodes[0].id, nodes[0].position, nodes[0].tool) in ToolRowOf(nodes[0]);
      }
    }
  }

  lemma {:induction false} AttachmentIdIff(nodes: seq<Node>, id: Id)
    requires HasUniqueIds(nodes)
    ensures (exists r :: r in AttachmentRows(nodes) && r.id == id) <==> FindKind(nodes, id) == Some(AttachmentKind)
    decreases |nodes|
  {
    if |nodes| > 0 {
      AttachmentIdIff(nodes[1..], id);
      assert forall r :: r in AttachmentRows(nodes) <==> r in AttachmentRowOf(nodes[0]) || r in AttachmentRows(nodes[1..]);
      if nodes[0].Attachment? {
        assert EncodeAttachment(nodes[0].id, nodes[0].position, nodes[0].attachment) in AttachmentRowOf(nodes[0]);
      }
    }
  }

  /** The three id sets the server builds say of each id what kind of node the editor had. */
  lemma IdsTellKinds(c: Canvas, id: Id)
    requires HasUniqueIds(c.nodes)
    ensures var ids := IdsOf(Encode(c));
            && (id in ids.agents <==> FindKind(c.nodes, id) == Some(AgentKind))
            && (id in ids.tools <==> FindKind(c.nodes, id) == Some(ToolKind))
            && (id in ids.attachments <==> FindKind(c.nodes, id) == Some(AttachmentKind))
  {
    AgentIdIff(c.nodes, id);
    ToolIdIff(c.nodes, id);
    AttachmentIdIff(c.nodes, id);
  }

  /**
   * For an edge between two nodes of a canvas the server finds no fault exactly when no attachment is
   * involved, or the client would have let it be drawn and given it this type.
   */
  lemma ServerAgreesIff(c: Canvas, e: Edge)
    requires HasUniqueIds(c.nodes) && FindKind(c.nodes, e.source).Some? && FindKind(c.nodes, e.target).Some?
    ensures var s, t := FindKind(c.nodes, e.source).value, FindKind(c.nodes, e.target).value;
            EdgeError(EncodeEdge(e), IdsOf(Encode(c))).None? <==>
              || (!s.AttachmentKind? && !t.AttachmentKind?)
              || (IsValidNodeTypeConnection(s, t) && e.edgeType.GetOr(ToolAccess) == DeriveEdgeType(s, t))
  {
    IdsTellKinds(c, e.source);
    IdsTellKinds(c, e.target);
  }

  /** What the editor can show, the server takes. */
  lemma EveryCanvasIsAccepted(ops: seq<Op>)
    ensures var h := Run(CanvasHistory.Start(Canvas([], [])), ops);
            IsSound(h.present) && IsAccepted(Encode(h.present))
  {
    EditorStaysSound(CanvasHistory.Start(Canvas([], [])), ops);
    SoundIsAccepted(Run(CanvasHistory.Start(Canvas([], [])), ops).present);
  }

  lemma SoundIsAccepted(c: Canvas)
    requires IsSound(c)
    ensures IsAccepted(Encode(c))
  {
    var p := Encode(c);
    forall i | 0 <= i < |p.edges| ensures EdgeError(p.edges[i], IdsOf(p)).None? {
      assert c.edges[i] in c.edges;
      assert IsDrawn(c.nodes, c.edges[i]);
      ServerAgreesIff(c, c.edges[i]);
    }
  }

  /** Saving and loading a canvas the editor can show brings back its edges, anchors included. */
  lemma ReloadKeepsEdges(c: Canvas)
    requires IsSound(c)
    ensures Decode(Echo(Encode(c))).edges == c.edges
  {
    forall i | 0 <= i < |c.edges| ensures DecodeEdge(EncodeEdge(c.edges[i])) == c.edges[i] {
      assert c.edges[i] in c.edges;
      assert IsDrawn(c.nodes, c.edges[i]);
    }
  }

  // -------------------------------------------------------------------------------------------
  // Deleting
  // -------------------------------------------------------------------------------------------

  function IdSet(nodes: seq<Node>): set<Id> {
    set n | n in nodes :: n.id
  }

  /** The store as the deletions write it. */
  class CanvasStore {
    var nodes: seq<Node>
    var edges: seq<Edge>
    var selectedNodeId: Option<Id>
    var activeNodeId: Option<Id>

    constructor ()
      ensures nodes == [] && edges == [] && selectedNodeId.None? && activeNodeId.None?
    {
      nodes, edges, selectedNodeId, activeNodeId := [], [], None, None;
    }

    /** What both deletions do once they are confirmed. */
    method DeleteIds(ids: set<Id>)
      modifies this
      ensures Canvas(nodes, edges) == Deleted(old(Canvas(nodes, edges)), ids)
      ensures selectedNodeId == (if old(selectedNodeId).Some? && old(selectedNodeId).value in ids then None else old(selectedNodeId))
      ensures activeNodeId == (if old(activeNodeId).Some? && old(activeNodeId).value in ids then None else old(activeNodeId))
    {
      nodes := KeptNodes(nodes, ids);
      edges := KeptEdges(edges, ids);
      if selectedNodeId.Some? && selectedNodeId.value in ids {
        selectedNodeId := None;
      }
      if activeNodeId.Some? && activeNodeId.value in ids {
        activeNodeId := None;
      }
    }

    /** Nothing changes when the node is not there or the user cancels. */
    method DeleteNodeWithConfirm(id: Id, confirmed: bool) returns (deleted: bool)
      modifies this
      ensures deleted <==> confirmed && FindKind(old(nodes), id).Some?
      ensures deleted ==> Canvas(nodes, edges) == Deleted(old(Canvas(nodes, edges)), {id})
      ensures deleted ==> selectedNodeId != Some(id) && activeNodeId != Some(id)
      ensures !deleted ==> unchanged(this)
    {
      if FindKind(nodes, id).None? || !confirmed {
        return false;
      }
      DeleteIds({id});
      deleted := true;
    }

    /** The nodes that were selected when the question was asked are the ones that go. */
    method DeleteSelectedNodesWithConfirm(selected: seq<Node>, confirmed: bool) returns (deleted: bool)
      modifies this
      ensures deleted <==> confirmed && |selected| > 0
      ensures deleted ==> Canvas(nodes, edges) == Deleted(old(Canvas(nodes, edges)), IdSet(selected))
      ensures !deleted ==> unchanged(this)
    {
      if |selected| == 0 || !confirmed {
        return false;
      }
      DeleteIds(IdSet(selected));
      deleted := true;
    }
  }

  /**
   * A deletion writes the nodes and then the edges, and the two are one step of the history: after
   * the burst is recorded one undo brings back the nodes with every edge they had.
   */
  lemma UndoRestoresDeletion(h: Editor, ids: set<Id>)
    requires CanvasHistory.IsCapped(h) && h.burst.None? && KeptNodes(h.present.nodes, ids) != h.present.nodes
    ensures var half := CanvasHistory.Edited(h, h.present.(nodes := KeptNodes(h.present.nodes, ids)));
            var whole := CanvasHistory.Edited(half, Deleted(h.present, ids));
            && whole.present == Deleted(h.present, ids)
            && CanvasHistory.Undone(CanvasHistory.Committed(whole)).present == h.present
  {
    var half := CanvasHistory.Edited(h, h.present.(nodes := KeptNodes(h.present.nodes, ids)));
    var whole := CanvasHistory.Edited(half, Deleted(h.present, ids));
    CanvasHistory.CommitThenUndo(whole);
  }
}
