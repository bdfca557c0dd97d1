/**
 * frontend/src/lib/canvasGraphCodec.ts: the editor's one list of nodes of all kinds against the
 * three lists of the save payload and of the response.
 *
 * Widths, markers and other looks are left out; the anchors of an edge are kept.
 */
module CanvasCodec {
  import opened Wrappers

  type Id = string

  const AGENT_MODEL := "ollama:llama3.1"
  const WORKER := "worker"
  const RAG_CHUNK_SIZE := 1000
  const RAG_TOP_K := 5
  const TEXT := "text"
  const AGENT := "Agent"
  const TOOL := "Tool"
  const ATTACHMENT := "Attachment"
  const EMPTY: string := ""
  const INLINE := "inline"

  datatype Position = Position(x: real, y: real)
  datatype Grant = Grant(name: string, requiresApproval: bool)

  // -------------------------------------------------------------------------------------------
  // The editor
  // -------------------------------------------------------------------------------------------

  datatype AgentData = AgentData(
    name: Option<string>, role: Option<string>, instructions: Option<string>, modelName: Option<string>,
    agentType: Option<string>, enablePlotting: Option<bool>, enableCoding: Option<bool>, enableNetwork: Option<bool>,
    enableMemory: Option<bool>, enableConversationHistory: Option<bool>, enableRag: Option<bool>,
    ragChunkSize: Option<int>, ragTopK: Option<int>, isEntryPoint: Option<bool>, enableHitl: Option<bool>)

  datatype ToolData = ToolData(
    name: Option<string>, code: Option<string>, packages: Option<string>, args: Option<seq<string>>,
    requiresApproval: Option<bool>, mcpServerId: Option<string>, mcpTools: Option<seq<Grant>>,
    mcpSeenTools: Option<seq<string>>, mcpReference: Option<string>)

  datatype AttachmentData = AttachmentData(
    name: Option<string>, fileType: Option<string>, deliveryMethod: Option<string>, description: Option<string>)

  /** A node of a type the editor does not know is kept on the canvas and never saved. */
  datatype Node =
    | Agent(id: Id, position: Position, agent: AgentData)
    | Tool(id: Id, position: Position, tool: ToolData)
    | Attachment(id: Id, position: Position, attachment: AttachmentData)
    | Unknown(id: Id, position: Position)

  datatype EdgeType = Handoff | Produces | Consumes | ToolAccess | Other(name: string)

  datatype Edge = Edge(
    id: Id, source: Id, target: Id, sourceHandle: string, targetHandle: string, edgeType: Option<EdgeType>)

  datatype Canvas = Canvas(nodes: seq<Node>, edges: seq<Edge>)

  // -------------------------------------------------------------------------------------------
  // The save payload and the response
  // -------------------------------------------------------------------------------------------

  datatype AgentRow = AgentRow(
    id: Id, name: string, role: string, instructions: string, modelName: string, agentType: string,
    enablePlotting: bool, enableCoding: bool, enableNetwork: bool, enableMemory: bool,
    enableConversationHistory: bool, enableRag: bool, ragChunkSize: int, ragTopK: int, isEntryPoint: bool,
    enableHitl: bool, position: Position)

  datatype ToolRow = ToolRow(
    id: Id, name: string, code: string, packages: string, args: seq<string>, requiresApproval: bool,
    mcpServerId: Option<string>, mcpTools: seq<Grant>, mcpSeenTools: seq<string>, position: Position)

  datatype AttachmentRow = AttachmentRow(
    id: Id, name: string, fileType: string, deliveryMethod: string, description: string, position: Position)

  datatype EdgeRow = EdgeRow(id: Id, source: Id, target: Id, edgeType: EdgeType)

  datatype Payload = Payload(
    agents: seq<AgentRow>, tools: seq<ToolRow>, attachments: seq<AttachmentRow>, edges: seq<EdgeRow>)

  /** Where a response may lack a field, or the field may be null. */
  datatype ToolResponse = ToolResponse(
    id: Id, name: string, code: string, packages: Option<string>, args: seq<string>, requiresApproval: bool,
    mcpServerId: Option<string>, mcpTools: Option<seq<Grant>>, mcpSeenTools: Option<seq<string>>,
    mcpReference: Option<string>, position: Position)

  datatype AttachmentResponse = AttachmentResponse(
    id: Id, name: string, fileType: string, deliveryMethod: Option<string>, description: Option<string>,
    position: Position)

  datatype Response = Response(
    agents: seq<AgentRow>, tools: seq<ToolResponse>, attachments: Option<seq<AttachmentResponse>>, edges: seq<EdgeRow>)

  // -------------------------------------------------------------------------------------------
  // Encoding
  // -------------------------------------------------------------------------------------------

  function EncodeAgent(id: Id, p: Position, d: AgentData): AgentRow {
    AgentRow(id, d.name.GetOr(AGENT), d.role.GetOr(EMPTY), d.instructions.GetOr(EMPTY), d.modelName.GetOr(AGENT_MODEL),
             d.agentType.GetOr(WORKER), d.enablePlotting.GetOr(false), d.enableCoding.GetOr(false),
             d.enableNetwork.GetOr(false), d.enableMemory.GetOr(false), d.enableConversationHistory.GetOr(false),
             d.enableRag.GetOr(false), d.ragChunkSize.GetOr(RAG_CHUNK_SIZE), d.ragTopK.GetOr(RAG_TOP_K),
             d.isEntryPoint.GetOr(false), d.enableHitl.GetOr(false), p)
  }

  function EncodeTool(id: Id, p: Position, d: ToolData): ToolRow {
    ToolRow(id, d.name.GetOr(TOOL), d.code.GetOr(EMPTY), d.packages.GetOr(EMPTY), d.args.GetOr([]),
            d.requiresApproval.GetOr(false), d.mcpServerId, d.mcpTools.GetOr([]), d.mcpSeenTools.GetOr([]), p)
  }

  function EncodeAttachment(id: Id, p: Position, d: AttachmentData): AttachmentRow {
    AttachmentRow(id, d.name.GetOr(ATTACHMENT), d.fileType.GetOr(TEXT), d.deliveryMethod.GetOr(INLINE),
                  d.description.GetOr(EMPTY), p)
  }

  function AgentRowOf(n: Node): seq<AgentRow> {
    if n.Agent? then [EncodeAgent(n.id, n.position, n.agent)] else []
  }

  function ToolRowOf(n: Node): seq<ToolRow> {
    if n.Tool? then [EncodeTool(n.id, n.position, n.tool)] else []
  }

  function AttachmentRowOf(n: Node): seq<AttachmentRow> {
    if n.Attachment? then [EncodeAttachment(n.id, n.position, n.attachment)] else []
  }

  function AgentRows(nodes: seq<Node>): seq<AgentRow> {
    if |nodes| == 0 then []
    else AgentRowOf(nodes[0]) + AgentRows(nodes[1..])
  }

  function ToolRows(nodes: seq<Node>): seq<ToolRow> {
    if |nodes| == 0 then []
    else ToolRowOf(nodes[0]) + ToolRows(nodes[1..])
  }

  function AttachmentRows(nodes: seq<Node>): seq<AttachmentRow> {
    if |nodes| == 0 then []
    else AttachmentRowOf(nodes[0]) + AttachmentRows(nodes[1..])
  }

  function EncodeEdge(e: Edge): EdgeRow {
    EdgeRow(e.id, e.source, e.target, e.edgeType.GetOr(ToolAccess))
  }

  function EdgeRows(edges: seq<Edge>): seq<EdgeRow> {
    seq(|edges|, i requires 0 <= i < |edges| => EncodeEdge(edges[i]))
  }

  function Encode(c: Canvas): Payload {
    Payload(AgentRows(c.nodes), ToolRows(c.nodes), AttachmentRows(c.nodes), EdgeRows(c.edges))
  }

  // -------------------------------------------------------------------------------------------
  // Decoding
  // -------------------------------------------------------------------------------------------

  function DecodeAgent(r: AgentRow): Node {
    Agent(r.id, r.position,
          AgentData(Some(r.name), Some(r.role), Some(r.instructions), Some(r.modelName), Some(r.agentType),
                    Some(r.enablePlotting), Some(r.enableCoding), Some(r.enableNetwork), Some(r.enableMemory),
                    Some(r.enableConversationHistory), Some(r.enableRag), Some(r.ragChunkSize), Some(r.ragTopK),
                    Some(r.isEntryPoint), Some(r.enableHitl)))
  }

  function DecodeTool(r: ToolResponse): Node {
    Tool(r.id, r.position,
         ToolData(Some(r.name), Some(r.code), Some(r.packages.GetOr(EMPTY)), Some(r.args), Some(r.requiresApproval),
                  r.mcpServerId, Some(r.mcpTools.GetOr([])), Some(r.mcpSeenTools.GetOr([])), r.mcpReference))
  }

  function DecodeAttachment(r: AttachmentResponse): Node {
    Attachment(r.id, r.position,
               AttachmentData(Some(r.name), Some(r.fileType), Some(r.deliveryMethod.GetOr(INLINE)),
                              Some(r.description.GetOr(EMPTY))))
  }

  function DecodeAgents(rows: seq<AgentRow>): seq<Node> {
    if |rows| == 0 then [] else [DecodeAgent(rows[0])] + DecodeAgents(rows[1..])
  }

  function DecodeTools(rows: seq<ToolResponse>): seq<Node> {
    if |rows| == 0 then [] else [DecodeTool(rows[0])] + DecodeTools(rows[1..])
  }

  function DecodeAttachments(rows: seq<AttachmentResponse>): seq<Node> {
    if |rows| == 0 then [] else [DecodeAttachment(rows[0])] + DecodeAttachments(rows[1..])
  }

  /** The anchors of an edge by what it means. */
  function EdgeHandles(t: EdgeType): (string, string) {
    match t
    case Handoff => ("agent-out", "agent-in")
    case Produces => ("attachment-out", "attachment-target")
    case Consumes => ("attachment-source", "attachment-in")
    case _ => ("tool-out", "tool-in")
  }

  function DecodeEdge(r: EdgeRow): Edge {
    Edge(r.id, r.source, r.target, EdgeHandles(r.edgeType).0, EdgeHandles(r.edgeType).1, Some(r.edgeType))
  }

  function DecodeEdges(rows: seq<EdgeRow>): seq<Edge> {
    seq(|rows|, i requires 0 <= i < |rows| => DecodeEdge(rows[i]))
  }

  function Decode(r: Response): Canvas {
    Canvas(DecodeAgents(r.agents) + DecodeTools(r.tools) + DecodeAttachments(r.attachments.GetOr([])),
           DecodeEdges(r.edges))
  }

  // -------------------------------------------------------------------------------------------
  // What a row says of a node
  // -------------------------------------------------------------------------------------------

  /** The row tells of what the node has; where it has nothing, the row may say anything. */
  predicate Tells<T(==)>(given: Option<T>, told: T) {
    given.Some? ==> given.value == told
  }

  predicate TellsOfAgent(r: AgentRow, d: AgentData) {
    && Tells(d.name, r.name) && Tells(d.role, r.role) && Tells(d.instructions, r.instructions)
    && Tells(d.modelName, r.modelName) && Tells(d.agentType, r.agentType)
    && Tells(d.enablePlotting, r.enablePlotting) && Tells(d.enableCoding, r.enableCoding)
    && Tells(d.enableNetwork, r.enableNetwork) && Tells(d.enableMemory, r.enableMemory)
    && Tells(d.enableConversationHistory, r.enableConversationHistory) && Tells(d.enableRag, r.enableRag)
    && Tells(d.ragChunkSize, r.ragChunkSize) && Tells(d.ragTopK, r.ragTopK)
    && Tells(d.isEntryPoint, r.isEntryPoint) && Tells(d.enableHitl, r.enableHitl)
  }

  predicate TellsOfTool(r: ToolRow, d: ToolData) {
    && Tells(d.name, r.name) && Tells(d.code, r.code) && Tells(d.packages, r.packages) && Tells(d.args, r.args)
    && Tells(d.requiresApproval, r.requiresApproval) && d.mcpServerId == r.mcpServerId
    && Tells(d.mcpTools, r.mcpTools) && Tells(d.mcpSeenTools, r.mcpSeenTools)
  }

  predicate TellsOfAttachment(r: AttachmentRow, d: AttachmentData) {
    && Tells(d.name, r.name) && Tells(d.fileType, r.fileType) && Tells(d.deliveryMethod, r.deliveryMethod)
    && Tells(d.description, r.description)
  }

  /** A row and a node of the same kind, place and identity, that agree field by field. */
  predicate Describes(p: Payload, n: Node) {
    match n
    case Agent(id, position, d) => exists r | r in p.agents :: r.id == id && r.position == position && TellsOfAgent(r, d)
    case Tool(id, position, d) => exists r | r in p.tools :: r.id == id && r.position == position && TellsOfTool(r, d)
    case Attachment(id, position, d) =>
      exists r | r in p.attachments :: r.id == id && r.position == position && TellsOfAttachment(r, d)
    case Unknown(_, _) => true
  }

  lemma {:induction false} RowsHoldNode(nodes: seq<Node>, n: Node)
    requires n in nodes
    ensures (forall r | r in AgentRowOf(n) :: r in AgentRows(nodes))
         && (forall r | r in ToolRowOf(n) :: r in ToolRows(nodes))
         && (forall r | r in AttachmentRowOf(n) :: r in AttachmentRows(nodes))
    decreases |nodes|
  {
    if n != nodes[0] {
      RowsHoldNode(nodes[1..], n);
    }
  }

  /** Saving writes each node of the canvas to a row of its kind, each of its fields to the field of that name. */
  lemma SavedRowsTellOfNodes(c: Canvas, n: Node)
    requires n in c.nodes
    ensures Describes(Encode(c), n)
  {
    RowsHoldNode(c.nodes, n);
    match n
    case Agent(id, p, d) =>
      var r := EncodeAgent(id, p, d);
      assert r in AgentRowOf(n) && TellsOfAgent(r, d);
    case Tool(id, p, d) =>
      var r := EncodeTool(id, p, d);
      assert r in ToolRowOf(n) && TellsOfTool(r, d);
    case Attachment(id, p, d) =>
      var r := EncodeAttachment(id, p, d);
      assert r in AttachmentRowOf(n) && TellsOfAttachment(r, d);
    case Unknown(_, _) =>
  }

  /** Loading shows of each row every field under its name, with nothing left open. */
  lemma LoadedNodesTellOfRows(a: AgentRow, t: ToolResponse, x: AttachmentResponse)
    ensures var n := DecodeAgent(a);
            n.Agent? && n.id == a.id && n.position == a.position && TellsOfAgent(a, n.agent) && n.agent.name.Some?
            && n.agent.role.Some? && n.agent.instructions.Some? && n.agent.modelName.Some? && n.agent.agentType.Some?
    ensures var n := DecodeTool(t);
            n.Tool? && n.id == t.id && n.position == t.position && n.tool.name == Some(t.name) && n.tool.code == Some(t.code)
            && n.tool.args == Some(t.args) && n.tool.requiresApproval == Some(t.requiresApproval)
            && n.tool.mcpServerId == t.mcpServerId && n.tool.mcpReference == t.mcpReference
            && (t.packages.Some? ==> n.tool.packages == t.packages) && (t.mcpTools.Some? ==> n.tool.mcpTools == t.mcpTools)
            && (t.mcpSeenTools.Some? ==> n.tool.mcpSeenTools == t.mcpSeenTools)
    ensures var n := DecodeAttachment(x);
            n.Attachment? && n.id == x.id && n.position == x.position && n.attachment.name == Some(x.name)
            && n.attachment.fileType == Some(x.fileType)
            && (x.deliveryMethod.Some? ==> n.attachment.deliveryMethod == x.deliveryMethod)
            && (x.description.Some? ==> n.attachment.description == x.description)
  {
  }

  // -------------------------------------------------------------------------------------------
  // Round trips
  // -------------------------------------------------------------------------------------------

  /** What a response says of a tool, an attachment, a canvas, once its gaps are filled. */
  function ToolOf(r: ToolResponse): ToolRow {
    ToolRow(r.id, r.name, r.code, r.packages.GetOr(EMPTY), r.args, r.requiresApproval, r.mcpServerId,
            r.mcpTools.GetOr([]), r.mcpSeenTools.GetOr([]), r.position)
  }

  function AttachmentOf(r: AttachmentResponse): AttachmentRow {
    AttachmentRow(r.id, r.name, r.fileType, r.deliveryMethod.GetOr(INLINE), r.description.GetOr(EMPTY), r.position)
  }

  function ToolsOf(rows: seq<ToolResponse>): seq<ToolRow> {
    seq(|rows|, i requires 0 <= i < |rows| => ToolOf(rows[i]))
  }

  function AttachmentsOf(rows: seq<AttachmentResponse>): seq<AttachmentRow> {
    seq(|rows|, i requires 0 <= i < |rows| => AttachmentOf(rows[i]))
  }

  lemma RowsOfFirst(n: Node, rest: seq<Node>)
    ensures AgentRows([n] + rest) == AgentRowOf(n) + AgentRows(rest)
    ensures ToolRows([n] + rest) == ToolRowOf(n) + ToolRows(rest)
    ensures AttachmentRows([n] + rest) == AttachmentRowOf(n) + AttachmentRows(rest)
  {
    assert ([n] + rest)[1..] == rest;
  }

  lemma AgentIsKept(r: AgentRow)
    ensures AgentRowOf(DecodeAgent(r)) == [r]
    ensures ToolRowOf(DecodeAgent(r)) == [] && AttachmentRowOf(DecodeAgent(r)) == []
  {
  }

  lemma ToolIsKept(r: ToolResponse)
    ensures ToolRowOf(DecodeTool(r)) == [ToolOf(r)]
    ensures AgentRowOf(DecodeTool(r)) == [] && AttachmentRowOf(DecodeTool(r)) == []
  {
  }

  lemma AttachmentIsKept(r: AttachmentResponse)
    ensures AttachmentRowOf(DecodeAttachment(r)) == [AttachmentOf(r)]
    ensures AgentRowOf(DecodeAttachment(r)) == [] && ToolRowOf(DecodeAttachment(r)) == []
  {
  }

  lemma {:induction false} AgentRowsOfBoth(a: seq<Node>, b: seq<Node>)
    ensures AgentRows(a + b) == AgentRows(a) + AgentRows(b)
    decreases |a|
  {
    if |a| == 0 {
      assert a + b == b;
    } else {
      AgentRowsOfBoth(a[1..], b);
      var first, more, rest := AgentRowOf(a[0]), AgentRows(a[1..]), AgentRows(b);
      assert (a + b)[0] == a[0] && (a + b)[1..] == a[1..] + b;
      assert AgentRows(a + b) == first + (more + rest);
      assert first + (more + rest) == first + more + rest;
    }
  }

  lemma {:induction false} ToolRowsOfBoth(a: seq<Node>, b: seq<Node>)
    ensures ToolRows(a + b) == ToolRows(a) + ToolRows(b)
    decreases |a|
  {
    if |a| == 0 {
      assert a + b == b;
    } else {
      ToolRowsOfBoth(a[1..], b);
      var first, more, rest := ToolRowOf(a[0]), ToolRows(a[1..]), ToolRows(b);
      assert (a + b)[0] == a[0] && (a + b)[1..] == a[1..] + b;
      assert ToolRows(a + b) == first + (more + rest);
      assert first + (more + rest) == first + more + rest;
    }
  }

  lemma {:induction false} AttachmentRowsOfBoth(a: seq<Node>, b: seq<Node>)
    ensures AttachmentRows(a + b) == AttachmentRows(a) + AttachmentRows(b)
    decreases |a|
  {
    if |a| == 0 {
      assert a + b == b;
    } else {
      AttachmentRowsOfBoth(a[1..], b);
      var first, more, rest := AttachmentRowOf(a[0]), AttachmentRows(a[1..]), AttachmentRows(b);
      assert (a + b)[0] == a[0] && (a + b)[1..] == a[1..] + b;
      assert AttachmentRows(a + b) == first + (more + rest);
      assert first + (more + rest) == first + more + rest;
    }
  }

  lemma {:induction false} AgentsOfAgents(rows: seq<AgentRow>)
    ensures AgentRows(DecodeAgents(rows)) == rows
    ensures ToolRows(DecodeAgents(rows)) == [] && AttachmentRows(DecodeAgents(rows)) == []
    decreases |rows|
  {
    if |rows| > 0 {
      AgentsOfAgents(rows[1..]);
      RowsOfFirst(DecodeAgent(rows[0]), DecodeAgents(rows[1..]));
      AgentIsKept(rows[0]);
    }
  }

  lemma {:induction false} ToolsOfTools(rows: seq<ToolResponse>)
    ensures ToolRows(DecodeTools(rows)) == ToolsOf(rows)
    ensures AgentRows(DecodeTools(rows)) == [] && AttachmentRows(DecodeTools(rows)) == []
    decreases |rows|
  {
    if |rows| > 0 {
      ToolsOfTools(rows[1..]);
      RowsOfFirst(DecodeTool(rows[0]), DecodeTools(rows[1..]));
      ToolIsKept(rows[0]);
      assert ToolsOf(rows) == [ToolOf(rows[0])] + ToolsOf(rows[1..]);
    }
  }

  lemma {:induction false} AttachmentsOfAttachments(rows: seq<AttachmentResponse>)
    ensures AttachmentRows(DecodeAttachments(rows)) == AttachmentsOf(rows)
    ensures AgentRows(DecodeAttachments(rows)) == [] && ToolRows(DecodeAttachments(rows)) == []
    decreases |rows|
  {
    if |rows| > 0 {
      AttachmentsOfAttachments(rows[1..]);
      RowsOfFirst(DecodeAttachment(rows[0]), DecodeAttachments(rows[1..]));
      AttachmentIsKept(rows[0]);
      assert AttachmentsOf(rows) == [AttachmentOf(rows[0])] + AttachmentsOf(rows[1..]);
    }
  }

  lemma RowsOfThree(a: seq<Node>, t: seq<Node>, x: seq<Node>)
    ensures AgentRows(a + t + x) == AgentRows(a) + AgentRows(t) + AgentRows(x)
    ensures ToolRows(a + t + x) == ToolRows(a) + ToolRows(t) + ToolRows(x)
    ensures AttachmentRows(a + t + x) == AttachmentRows(a) + AttachmentRows(t) + AttachmentRows(x)
  {
    AgentRowsOfBoth(a + t, x);
    AgentRowsOfBoth(a, t);
    ToolRowsOfBoth(a + t, x);
    ToolRowsOfBoth(a, t);
    AttachmentRowsOfBoth(a + t, x);
    AttachmentRowsOfBoth(a, t);
  }

  lemma EdgesAreKept(rows: seq<EdgeRow>)
    ensures EdgeRows(DecodeEdges(rows)) == rows
  {
  }

  /**
   * Loading a canvas and saving it gives back every field of every agent, tool, attachment and edge,
   * in order, with nothing but the fields the response lacked filled in.
   */
  lemma LoadThenSave(r: Response)
    ensures Encode(Decode(r)) == Payload(r.agents, ToolsOf(r.tools), AttachmentsOf(r.attachments.GetOr([])), r.edges)
  {
    var a, t, x := DecodeAgents(r.agents), DecodeTools(r.tools), DecodeAttachments(r.attachments.GetOr([]));
    AgentsOfAgents(r.agents);
    ToolsOfTools(r.tools);
    AttachmentsOfAttachments(r.attachments.GetOr([]));
    RowsOfThree(a, t, x);
    EdgesAreKept(r.edges);
  }

  /** The response that tells of exactly what was saved. */
  function Echo(p: Payload): Response {
    Response(p.agents,
             seq(|p.tools|, i requires 0 <= i < |p.tools| => EchoTool(p.tools[i])),
             Some(seq(|p.attachments|, i requires 0 <= i < |p.attachments| => EchoAttachment(p.attachments[i]))),
             p.edges)
  }

  function EchoTool(t: ToolRow): ToolResponse {
    ToolResponse(t.id, t.name, t.code, Some(t.packages), t.args, t.requiresApproval, t.mcpServerId,
                 Some(t.mcpTools), Some(t.mcpSeenTools), None, t.position)
  }

  function EchoAttachment(a: AttachmentRow): AttachmentResponse {
    AttachmentResponse(a.id, a.name, a.fileType, Some(a.deliveryMethod), Some(a.description), a.position)
  }

  /** Saving, loading and saving again saves the same, however the kinds of node were interleaved. */
  lemma SaveIsStable(c: Canvas)
    ensures Encode(Decode(Echo(Encode(c)))) == Encode(c)
  {
    var p := Encode(c);
    LoadThenSave(Echo(p));
    assert ToolsOf(Echo(p).tools) == p.tools;
    assert AttachmentsOf(Echo(p).attachments.value) == p.attachments;
  }

  /** A tool forgets the reference it was imported with. */
  predicate HasNoReference(r: Response) {
    forall i | 0 <= i < |r.tools| :: r.tools[i].mcpReference.None?
  }

  lemma {:induction false} DecodeToolsAt(rows: seq<ToolResponse>, i: nat)
    requires i < |rows|
    ensures |DecodeTools(rows)| == |rows| && DecodeTools(rows)[i] == DecodeTool(rows[i])
    decreases |rows|
  {
    if |rows| > 1 {
      DecodeToolsAt(rows[1..], if i == 0 then 0 else i - 1);
    }
  }

  lemma {:induction false} DecodeAttachmentsAt(rows: seq<AttachmentResponse>, i: nat)
    requires i < |rows|
    ensures |DecodeAttachments(rows)| == |rows| && DecodeAttachments(rows)[i] == DecodeAttachment(rows[i])
    decreases |rows|
  {
    if |rows| > 1 {
      DecodeAttachmentsAt(rows[1..], if i == 0 then 0 else i - 1);
    }
  }

  lemma SameTools(a: seq<ToolResponse>, b: seq<ToolResponse>)
    requires |a| == |b| && ToolsOf(a) == ToolsOf(b)
    requires forall i | 0 <= i < |b| :: b[i].mcpReference.None?
    ensures DecodeTools(a) == DecodeTools(b) <==> forall i | 0 <= i < |a| :: a[i].mcpReference.None?
  {
    assert |a| > 0 ==> |DecodeTools(a)| == |a| && |DecodeTools(b)| == |b| by {
      if |a| > 0 {
        DecodeToolsAt(a, 0);
        DecodeToolsAt(b, 0);
      }
    }
    forall i | 0 <= i < |a|
      ensures (DecodeTools(a)[i] == DecodeTools(b)[i]) <==> a[i].mcpReference.None?
    {
      DecodeToolsAt(a, i);
      DecodeToolsAt(b, i);
      assert ToolsOf(a)[i] == ToolsOf(b)[i];
    }
  }

  lemma {:induction false} SameAttachments(a: seq<AttachmentResponse>, b: seq<AttachmentResponse>)
    requires AttachmentsOf(a) == AttachmentsOf(b) && |a| == |b|
    ensures DecodeAttachments(a) == DecodeAttachments(b)
    decreases |a|
  {
    if |a| > 0 {
      assert AttachmentsOf(a)[0] == AttachmentsOf(b)[0];
      assert AttachmentsOf(a[1..]) == AttachmentsOf(a)[1..] && AttachmentsOf(b[1..]) == AttachmentsOf(b)[1..];
      SameAttachments(a[1..], b[1..]);
    }
  }

  /** Saving what was loaded and loading it again shows the same canvas, but for import references. */
  lemma ReloadShowsSameIff(r: Response)
    ensures Decode(Echo(Encode(Decode(r)))) == Decode(r) <==> HasNoReference(r)
  {
    var p := Encode(Decode(r));
    LoadThenSave(r);
    var e := Echo(p);
    assert ToolsOf(e.tools) == ToolsOf(r.tools);
    assert AttachmentsOf(e.attachments.value) == AttachmentsOf(r.attachments.GetOr([]));
    SameTools(r.tools, e.tools);
    SameAttachments(e.attachments.value, r.attachments.GetOr([]));
    ReloadSplits(r, e);
  }

  lemma ReloadSplits(r: Response, e: Response)
    requires e.agents == r.agents && |e.tools| == |r.tools| && e.edges == r.edges
    requires DecodeAttachments(e.attachments.GetOr([])) == DecodeAttachments(r.attachments.GetOr([]))
    ensures Decode(e) == Decode(r) <==> DecodeTools(e.tools) == DecodeTools(r.tools)
  {
    if |r.tools| > 0 {
      DecodeToolsAt(e.tools, 0);
      DecodeToolsAt(r.tools, 0);
    }
    var n, k := |DecodeAgents(r.agents)|, |r.tools|;
    assert DecodeTools(e.tools) == Decode(e).nodes[n..n + k];
    assert DecodeTools(r.tools) == Decode(r).nodes[n..n + k];
  }
}
