/**
 * streaming_react.py: the loop in which an agent's model thinks, picks a tool and is told what came
 * of it, with an event for each step and a client that may have to approve the tool first.
 *
 * What the model, the client, the tools and the event callback do in iteration `i` is `env(i)`.
 */
module ReActLoop {
  import opened Wrappers

  const FINISH := "finish"
  const DENIED := "Tool execution denied by user."

  datatype ToolInfo = ToolInfo(requiresApproval: bool, mcpOrigin: bool)

  datatype Prediction = Prediction(thought: string, tool: string, args: string)

  /** A lost connection or a malformed reply counts as a denial; an abort ends the run. */
  datatype Answer = Approves | Denies | NoReply | AnswerAborts

  /** What a call gives: its result, the redacted text of its error, or the end of the run. */
  datatype Outcome = Returns(text: string) | Raises(text: string) | CallAborts

  /** None is a prediction that raises; an emission that aborts is not delivered. */
  datatype Turn = Turn(
    prediction: Option<Prediction>,
    answer: Answer,
    outcome: Outcome,
    thoughtAborts: bool,
    startAborts: bool,
    requestAborts: bool,
    resultAborts: bool)

  datatype Event =
    | Thought(content: string)
    | ToolStart(tool: string)
    | ApprovalRequest(request: nat, tool: string)
    | ToolResult(tool: string, output: string)

  datatype Key = ThoughtKey(i: nat) | NameKey(i: nat) | ArgsKey(i: nat) | ObservationKey(i: nat)

  datatype Execution = Execution(i: nat, tool: string)

  /** The events delivered, the trajectory dictionary, and every tool call that was begun. */
  datatype State = State(events: seq<Event>, trajectory: map<Key, string>, executed: seq<Execution>)

  datatype TurnEnd = Continue | Break | Abort | Fail
  datatype Ending = Finished | Aborted | Failed

  /** The tools of the agent, and whether a client is wired that can be asked. */
  datatype Agent = Agent(tools: map<string, ToolInfo>, hasClient: bool)

  const NOT_REGISTERED := " (it is not registered; pick one of the available tools)"

  const NO_CLIENT := ", but this run has no wired approval client. The tool was not executed; "
    + "pick another tool or ask the user to connect a client that can approve."

  function UnknownTool(tool: string): string {
    "Execution error in " + tool + ": Unknown tool '" + tool + "'" + NOT_REGISTERED
  }

  function Blocked(tool: string): string {
    "Execution blocked: tool '" + tool + "' requires approval" + NO_CLIENT
  }

  // -------------------------------------------------------------------------------------------
  // One iteration
  // -------------------------------------------------------------------------------------------

  function Emitted(s: State, e: Event): State {
    s.(events := s.events + [e])
  }

  function Noted(s: State, i: nat, p: Prediction): State {
    s.(trajectory := s.trajectory[ThoughtKey(i) := p.thought][NameKey(i) := p.tool][ArgsKey(i) := p.args])
  }

  function Observed(s: State, i: nat, output: string): State {
    s.(trajectory := s.trajectory[ObservationKey(i) := output])
  }

  function Reported(s: State, i: nat, tool: string, output: string, aborts: bool): (State, TurnEnd) {
    var o := Observed(s, i, output);
    if aborts then (o, Abort) else (Emitted(o, ToolResult(tool, output)), Continue)
  }

  function Called(s: State, i: nat, tool: string, t: Turn): (State, TurnEnd) {
    var c := s.(executed := s.executed + [Execution(i, tool)]);
    match t.outcome
    case CallAborts => (c, Abort)
    case Returns(text) => Reported(c, i, tool, text, t.resultAborts)
    case Raises(text) => Reported(c, i, tool, text, t.resultAborts)
  }

  function Approval(s: State, i: nat, tool: string, t: Turn): (State, TurnEnd) {
    if t.requestAborts then (s, Abort)
    else
      var r := Emitted(s, ApprovalRequest(i, tool));
      match t.answer
      case AnswerAborts => (r, Abort)
      case Approves => Called(r, i, tool, t)
      case _ => Reported(r, i, tool, DENIED, t.resultAborts)
  }

  function Picked(s: State, i: nat, tool: string, t: Turn, a: Agent): (State, TurnEnd) {
    if t.startAborts then (s, Abort)
    else
      var b := Emitted(s, ToolStart(tool));
      if tool !in a.tools then Reported(b, i, tool, UnknownTool(tool), t.resultAborts)
      else if a.tools[tool].requiresApproval && a.hasClient then Approval(b, i, tool, t)
      else if a.tools[tool].requiresApproval && a.tools[tool].mcpOrigin then Reported(b, i, tool, Blocked(tool), t.resultAborts)
      else Called(b, i, tool, t)
  }

  function AfterTurn(s: State, i: nat, t: Turn, a: Agent): (State, TurnEnd) {
    match t.prediction
    case None => (s, Fail)
    case Some(p) =>
      var n := Noted(s, i, p);
      if t.thoughtAborts then (n, Abort)
      else
        var e := Emitted(n, Thought(p.thought));
        if p.tool == FINISH then (e, Break) else Picked(e, i, p.tool, t, a)
  }

  function AfterLoop(s: State, i: nat, maxIters: nat, env: nat -> Turn, a: Agent): (State, Ending)
    decreases maxIters - i
  {
    if i >= maxIters then (s, Finished)
    else
      var (next, end) := AfterTurn(s, i, env(i), a);
      match end
      case Continue => AfterLoop(next, i + 1, maxIters, env, a)
      case Break => (next, Finished)
      case Abort => (next, Aborted)
      case Fail => (next, Failed)
  }

  const START := State([], map[], [])

  // -------------------------------------------------------------------------------------------
  // The loop
  // -------------------------------------------------------------------------------------------

  class StreamingReAct {
    const agent: Agent
    const maxIters: nat
    var events: seq<Event>
    var trajectory: map<Key, string>
    var executed: seq<Execution>

    function View(): State
      reads this
    {
      State(events, trajectory, executed)
    }

    constructor (agent: Agent, maxIters: nat)
      ensures this.agent == agent && this.maxIters == maxIters && View() == START
    {
      this.agent, this.maxIters := agent, maxIters;
      events, trajectory, executed := [], map[], [];
    }

    method Emit(e: Event, aborts: bool) returns (delivered: bool)
      modifies this`events
      ensures delivered == !aborts
      ensures View() == if aborts then old(View()) else Emitted(old(View()), e)
    {
      if !aborts {
        events := events + [e];
      }
      delivered := !aborts;
    }

    method Report(i: nat, tool: string, output: string, aborts: bool) returns (end: TurnEnd)
      modifies this`events, this`trajectory
      ensures (View(), end) == Reported(old(View()), i, tool, output, aborts)
    {
      trajectory := trajectory[ObservationKey(i) := output];
      var delivered := Emit(ToolResult(tool, output), aborts);
      end := if delivered then Continue else Abort;
    }

    method Call(i: nat, tool: string, t: Turn) returns (end: TurnEnd)
      modifies this
      ensures (View(), end) == Called(old(View()), i, tool, t)
    {
      executed := executed + [Execution(i, tool)];
      match t.outcome {
        case CallAborts => end := Abort;
        case Returns(text) => end := Report(i, tool, text, t.resultAborts);
        case Raises(text) => end := Report(i, tool, text, t.resultAborts);
      }
    }

    method Pick(i: nat, tool: string, t: Turn) returns (end: TurnEnd)
      modifies this
      ensures (View(), end) == Picked(old(View()), i, tool, t, agent)
    {
      var delivered := Emit(ToolStart(tool), t.startAborts);
      if !delivered {
        return Abort;
      }
      if tool !in agent.tools {
        end := Report(i, tool, UnknownTool(tool), t.resultAborts);
        return;
      }
      var info := agent.tools[tool];
      var approved, denial := true, DENIED;
      if info.requiresApproval {
        if agent.hasClient {
          delivered := Emit(ApprovalRequest(i, tool), t.requestAborts);
          if !delivered || t.answer.AnswerAborts? {
            return Abort;
          }
          approved := t.answer.Approves?;
        } else if info.mcpOrigin {
          approved, denial := false, Blocked(tool);
        }
      }
      if approved {
        end := Call(i, tool, t);
      } else {
        end := Report(i, tool, denial, t.resultAborts);
      }
    }

    /** The streaming loop, with a trajectory and a stream of events of its own. */
    method AForward(env: nat -> Turn) returns (ending: Ending)
      modifies this
      ensures (View(), ending) == AfterLoop(START, 0, maxIters, env, agent)
    {
      events, trajectory, executed := [], map[], [];
      for i := 0 to maxIters
        invariant AfterLoop(View(), i, maxIters, env, agent) == AfterLoop(START, 0, maxIters, env, agent)
      {
        var t := env(i);
        if t.prediction.None? {
          return Failed;
        }
        var p := t.prediction.value;
        trajectory := trajectory[ThoughtKey(i) := p.thought][NameKey(i) := p.tool][ArgsKey(i) := p.args];
        var delivered := Emit(Thought(p.thought), t.thoughtAborts);
        if !delivered {
          return Aborted;
        }
        if p.tool == FINISH {
          return Finished;
        }
        var end := Pick(i, p.tool, t);
        if end.Abort? {
          return Aborted;
        }
      }
      ending := Finished;
    }
  }

  // -------------------------------------------------------------------------------------------
  // The trace
  // -------------------------------------------------------------------------------------------

  /** (thought, tool_start, optional approval request, tool_result)*, each round about one tool. */
  predicate IsRounds(es: seq<Event>)
    decreases |es|
  {
    var n := |es|;
    n > 0 ==>
      && es[n - 1].ToolResult?
      && ((n >= 3 && es[n - 3].Thought? && es[n - 2] == ToolStart(es[n - 1].tool) && IsRounds(es[..n - 3]))
          || (n >= 4 && es[n - 4].Thought? && es[n - 3] == ToolStart(es[n - 1].tool)
              && es[n - 2].ApprovalRequest? && es[n - 2].tool == es[n - 1].tool && IsRounds(es[..n - 4])))
  }

  /** Rounds, and at most the thought that came with `finish`. */
  predicate IsTrace(es: seq<Event>) {
    IsRounds(es) || (|es| > 0 && es[|es| - 1].Thought? && IsRounds(es[..|es| - 1]))
  }

  /** A trace that stopped inside a round. */
  predicate IsPartialTrace(es: seq<Event>) {
    var n := |es|;
    || IsTrace(es)
    || (n >= 2 && es[n - 2].Thought? && es[n - 1].ToolStart? && IsRounds(es[..n - 2]))
    || (n >= 3 && es[n - 3].Thought? && es[n - 2].ToolStart? && es[n - 1].ApprovalRequest?
        && es[n - 1].tool == es[n - 2].tool && IsRounds(es[..n - 3]))
  }

  /** What the client was shown of each tool, in order. */
  function Outputs(es: seq<Event>): seq<string>
    decreases |es|
  {
    if |es| == 0 then []
    else Outputs(es[..|es| - 1]) + (if es[|es| - 1].ToolResult? then [es[|es| - 1].output] else [])
  }

  lemma OutputsOn(es: seq<Event>, e: Event)
    ensures Outputs(es + [e]) == Outputs(es) + (if e.ToolResult? then [e.output] else [])
  {
    assert (es + [e])[..|es|] == es;
  }

  lemma ShortRound(es: seq<Event>, c: string, tool: string, out: string)
    requires IsRounds(es)
    ensures var r := es + [Thought(c)] + [ToolStart(tool)] + [ToolResult(tool, out)];
            IsRounds(r) && Outputs(r) == Outputs(es) + [out]
  {
    var r := es + [Thought(c)] + [ToolStart(tool)] + [ToolResult(tool, out)];
    assert r[..|r| - 3] == es;
    OutputsOn(es, Thought(c));
    OutputsOn(es + [Thought(c)], ToolStart(tool));
    OutputsOn(es + [Thought(c)] + [ToolStart(tool)], ToolResult(tool, out));
  }

  lemma LongRound(es: seq<Event>, c: string, tool: string, i: nat, out: string)
    requires IsRounds(es)
    ensures var r := es + [Thought(c)] + [ToolStart(tool)] + [ApprovalRequest(i, tool)] + [ToolResult(tool, out)];
            IsRounds(r) && Outputs(r) == Outputs(es) + [out]
  {
    var r := es + [Thought(c)] + [ToolStart(tool)] + [ApprovalRequest(i, tool)] + [ToolResult(tool, out)];
    assert r[..|r| - 4] == es;
    OutputsOn(es, Thought(c));
    OutputsOn(es + [Thought(c)], ToolStart(tool));
    OutputsOn(es + [Thought(c)] + [ToolStart(tool)], ApprovalRequest(i, tool));
    OutputsOn(es + [Thought(c)] + [ToolStart(tool)] + [ApprovalRequest(i, tool)], ToolResult(tool, out));
  }

  lemma StoppedRound(es: seq<Event>, c: string, tool: string, i: nat)
    requires IsRounds(es)
    ensures IsPartialTrace(es) && IsTrace(es + [Thought(c)])
    ensures IsPartialTrace(es + [Thought(c)] + [ToolStart(tool)])
    ensures IsPartialTrace(es + [Thought(c)] + [ToolStart(tool)] + [ApprovalRequest(i, tool)])
    ensures Outputs(es + [Thought(c)]) == Outputs(es) == Outputs(es + [Thought(c)] + [ToolStart(tool)])
    ensures Outputs(es + [Thought(c)] + [ToolStart(tool)] + [ApprovalRequest(i, tool)]) == Outputs(es)
  {
    var one := es + [Thought(c)];
    var two := one + [ToolStart(tool)];
    var three := two + [ApprovalRequest(i, tool)];
    assert one[..|one| - 1] == es && two[..|two| - 2] == es && three[..|three| - 3] == es;
    OutputsOn(es, Thought(c));
    OutputsOn(one, ToolStart(tool));
    OutputsOn(two, ApprovalRequest(i, tool));
  }

  /** After `i` iterations: `i` rounds, and one observation for each, the one the client was shown. */
  ghost predicate IsAt(s: State, i: nat) {
    && IsRounds(s.events)
    && HasObservations(s, i)
  }

  ghost predicate HasObservations(s: State, i: nat) {
    && |Outputs(s.events)| == i
    && (forall k: nat :: ObservationKey(k) in s.trajectory <==> k < i)
    && (forall k: nat | k < i :: s.trajectory[ObservationKey(k)] == Outputs(s.events)[k])
  }

  /** `n` is iteration `i` begun on `s`, up to its tool start or its approval request. */
  ghost predicate IsInRound(s: State, n: State, i: nat, c: string, tool: string, asked: bool) {
    && IsAt(s, i)
    && n.events == (if asked then s.events + [Thought(c)] + [ToolStart(tool)] + [ApprovalRequest(i, tool)]
                    else s.events + [Thought(c)] + [ToolStart(tool)])
    && forall k: nat :: (ObservationKey(k) in n.trajectory <==> k < i)
                        && (k < i ==> n.trajectory[ObservationKey(k)] == s.trajectory[ObservationKey(k)])
  }

  ghost predicate EndsWell(next: State, end: TurnEnd, i: nat) {
    && (end.Continue? ==> IsAt(next, i + 1))
    && (!end.Continue? ==> end.Abort? && IsPartialTrace(next.events) && |Outputs(next.events)| == i)
  }

  lemma AbortEndsWell(s: State, n: State, i: nat, c: string, tool: string, asked: bool)
    requires IsInRound(s, n, i, c, tool, asked)
    ensures EndsWell(n, Abort, i)
  {
    StoppedRound(s.events, c, tool, i);
  }

  /** What the client was shown makes one more round. */
  lemma RoundIsComplete(s: State, n: State, i: nat, c: string, tool: string, asked: bool, out: string)
    requires IsInRound(s, n, i, c, tool, asked)
    ensures var r := n.events + [ToolResult(tool, out)]; IsRounds(r) && Outputs(r) == Outputs(s.events) + [out]
  {
    if asked {
      LongRound(s.events, c, tool, i, out);
    } else {
      ShortRound(s.events, c, tool, out);
    }
  }

  lemma {:induction false} ReportedEndsWell(s: State, n: State, i: nat, c: string, tool: string, asked: bool, out: string, aborts: bool)
    requires IsInRound(s, n, i, c, tool, asked)
    ensures var (next, end) := Reported(n, i, tool, out, aborts); EndsWell(next, end, i)
  {
    if aborts {
      AbortEndsWell(s, n, i, c, tool, asked);
    } else {
      RoundIsComplete(s, n, i, c, tool, asked, out);
    }
  }

  lemma {:induction false} CalledEndsWell(s: State, n: State, i: nat, c: string, tool: string, asked: bool, t: Turn)
    requires IsInRound(s, n, i, c, tool, asked)
    ensures var (next, end) := Called(n, i, tool, t); EndsWell(next, end, i)
  {
    var m := n.(executed := n.executed + [Execution(i, tool)]);
    match t.outcome
    case CallAborts => AbortEndsWell(s, m, i, c, tool, asked);
    case Returns(text) => ReportedEndsWell(s, m, i, c, tool, asked, text, t.resultAborts);
    case Raises(text) => ReportedEndsWell(s, m, i, c, tool, asked, text, t.resultAborts);
  }

  lemma AskedIsInRound(s: State, n: State, i: nat, c: string, tool: string)
    requires IsInRound(s, n, i, c, tool, false)
    ensures IsInRound(s, Emitted(n, ApprovalRequest(i, tool)), i, c, tool, true)
  {
  }

  lemma {:induction false} ApprovalEndsWell(s: State, n: State, i: nat, c: string, tool: string, t: Turn)
    requires IsInRound(s, n, i, c, tool, false)
    ensures var (next, end) := Approval(n, i, tool, t); EndsWell(next, end, i)
  {
    var r := Emitted(n, ApprovalRequest(i, tool));
    AskedIsInRound(s, n, i, c, tool);
    if t.requestAborts {
      AbortEndsWell(s, n, i, c, tool, false);
      assert Approval(n, i, tool, t) == (n, Abort);
    } else if t.answer.AnswerAborts? {
      AbortEndsWell(s, r, i, c, tool, true);
      assert Approval(n, i, tool, t) == (r, Abort);
    } else if t.answer.Approves? {
      CalledEndsWell(s, r, i, c, tool, true, t);
      assert Approval(n, i, tool, t) == Called(r, i, tool, t);
    } else {
      ReportedEndsWell(s, r, i, c, tool, true, DENIED, t.resultAborts);
      assert Approval(n, i, tool, t) == Reported(r, i, tool, DENIED, t.resultAborts);
    }
  }

  lemma {:induction false} PickedEndsWell(s: State, n: State, i: nat, p: Prediction, t: Turn, a: Agent)
    requires IsAt(s, i) && n == Emitted(Noted(s, i, p), Thought(p.thought))
    ensures var (next, end) := Picked(n, i, p.tool, t, a); EndsWell(next, end, i)
  {
    var c, tool := p.thought, p.tool;
    StoppedRound(s.events, c, tool, i);
    if !t.startAborts {
      var b := Emitted(n, ToolStart(tool));
      assert IsInRound(s, b, i, c, tool, false);
      if tool !in a.tools {
        ReportedEndsWell(s, b, i, c, tool, false, UnknownTool(tool), t.resultAborts);
      } else if a.tools[tool].requiresApproval && a.hasClient {
        ApprovalEndsWell(s, b, i, c, tool, t);
      } else if a.tools[tool].requiresApproval && a.tools[tool].mcpOrigin {
        ReportedEndsWell(s, b, i, c, tool, false, Blocked(tool), t.resultAborts);
      } else {
        CalledEndsWell(s, b, i, c, tool, false, t);
      }
    }
  }

  lemma ThoughtKeepsObservations(s: State, i: nat, p: Prediction)
    requires IsAt(s, i)
    ensures var n := Emitted(Noted(s, i, p), Thought(p.thought));
            HasObservations(n, i) && IsTrace(n.events) && !IsRounds(n.events)
  {
    LastThought(s.events, p.thought);
  }

  lemma LastThought(es: seq<Event>, c: string)
    requires IsRounds(es)
    ensures var r := es + [Thought(c)]; IsTrace(r) && !IsRounds(r) && Outputs(r) == Outputs(es)
  {
    assert (es + [Thought(c)])[..|es|] == es;
    OutputsOn(es, Thought(c));
  }

  lemma {:induction false} TurnKeepsTrace(s: State, i: nat, t: Turn, a: Agent)
    requires IsAt(s, i)
    ensures var (next, end) := AfterTurn(s, i, t, a);
            && (end.Continue? ==> IsAt(next, i + 1))
            && (end.Break? ==> IsTrace(next.events) && !IsRounds(next.events) && HasObservations(next, i))
            && (end.Abort? || end.Fail? ==> IsPartialTrace(next.events) && |Outputs(next.events)| == i)
  {
    if t.prediction.Some? {
      var p := t.prediction.value;
      var n := Emitted(Noted(s, i, p), Thought(p.thought));
      ThoughtKeepsObservations(s, i, p);
      if !t.thoughtAborts && p.tool != FINISH {
        PickedEndsWell(s, n, i, p, t, a);
        assert AfterTurn(s, i, t, a) == Picked(n, i, p.tool, t, a);
      }
    }
  }

  /**
   * A loop that finished: rounds and at most one last thought, with one observation for each round,
   * shown to the client as it was recorded; and without a last thought every iteration was used. A
   * loop that was stopped: a beginning of such a trace.
   */
  ghost predicate IsWellEnded(end: State, ending: Ending, maxIters: nat) {
    && IsPartialTrace(end.events)
    && (ending.Finished? ==> IsTrace(end.events) && HasObservations(end, |Outputs(end.events)|))
    && (ending.Finished? && IsRounds(end.events) ==> |Outputs(end.events)| == maxIters)
  }

  lemma UsedUpIsWellEnded(s: State, maxIters: nat)
    requires IsAt(s, maxIters)
    ensures IsWellEnded(s, Finished, maxIters)
  {
  }

  lemma BrokenIsWellEnded(next: State, i: nat, maxIters: nat)
    requires IsTrace(next.events) && !IsRounds(next.events) && HasObservations(next, i)
    ensures IsWellEnded(next, Finished, maxIters)
  {
  }

  lemma StoppedIsWellEnded(next: State, ending: Ending, maxIters: nat)
    requires IsPartialTrace(next.events) && !ending.Finished?
    ensures IsWellEnded(next, ending, maxIters)
  {
  }

  /** Whatever the model, the tools and the client do, the loop ends well. */
  lemma {:induction false} LoopEmitsTrace(s: State, i: nat, maxIters: nat, env: nat -> Turn, a: Agent)
    requires IsAt(s, i) && i <= maxIters
    ensures var (end, ending) := AfterLoop(s, i, maxIters, env, a); IsWellEnded(end, ending, maxIters)
    decreases maxIters - i
  {
    if i == maxIters {
      UsedUpIsWellEnded(s, maxIters);
    } else {
      TurnKeepsTrace(s, i, env(i), a);
      var (next, end) := AfterTurn(s, i, env(i), a);
      match end
      case Continue => LoopEmitsTrace(next, i + 1, maxIters, env, a);
      case Break => BrokenIsWellEnded(next, i, maxIters);
      case Abort => StoppedIsWellEnded(next, Aborted, maxIters);
      case Fail => StoppedIsWellEnded(next, Failed, maxIters);
    }
  }

  /** The trace of every run of the loop. */
  lemma EveryRunEmitsTrace(maxIters: nat, env: nat -> Turn, a: Agent)
    ensures var (end, ending) := AfterLoop(START, 0, maxIters, env, a); IsWellEnded(end, ending, maxIters)
  {
    LoopEmitsTrace(START, 0, maxIters, env, a);
  }

  // -------------------------------------------------------------------------------------------
  // The gate
  // -------------------------------------------------------------------------------------------

  /** A known tool that needs no approval, or has it; without a client only MCP tools are held back. */
  predicate MayRun(t: Turn, a: Agent) {
    && t.prediction.Some?
    && t.prediction.value.tool in a.tools
    && var info := a.tools[t.prediction.value.tool];
       info.requiresApproval ==> if a.hasClient then t.answer.Approves? else !info.mcpOrigin
  }

  function ExpectedRuns(env: nat -> Turn, a: Agent, i: nat): seq<Execution> {
    if i == 0 then []
    else ExpectedRuns(env, a, i - 1)
         + (if MayRun(env(i - 1), a) then [Execution(i - 1, env(i - 1).prediction.value.tool)] else [])
  }

  /** A call that needed approval was asked for in its own iteration, by its own request. */
  predicate WasAsked(x: Execution, es: seq<Event>, a: Agent) {
    x.tool in a.tools && a.tools[x.tool].requiresApproval && a.hasClient ==> ApprovalRequest(x.i, x.tool) in es
  }

  predicate WereAsked(s: State, a: Agent) {
    forall x | x in s.executed :: WasAsked(x, s.events, a)
  }

  lemma TurnRunsAllowed(s: State, i: nat, env: nat -> Turn, a: Agent)
    requires s.executed == ExpectedRuns(env, a, i) && WereAsked(s, a)
    ensures var (next, end) := AfterTurn(s, i, env(i), a);
            && WereAsked(next, a)
            && (end.Continue? ==> next.executed == ExpectedRuns(env, a, i + 1))
            && (!end.Continue? ==> next.executed == s.executed || next.executed == ExpectedRuns(env, a, i + 1))
            && (end.Break? ==> next.executed == s.executed)
  {
    var (next, end) := AfterTurn(s, i, env(i), a);
    forall x | x in next.executed ensures WasAsked(x, next.events, a) {
      if x in s.executed {
        assert WasAsked(x, s.events, a);
      }
    }
  }

  /**
   * The calls are those of the first `n` iterations: all whose result was shown, and in a loop that was
   * stopped possibly the one it was stopped in; and each that needed approval was asked for.
   */
  ghost predicate IsAllowed(end: State, ending: Ending, env: nat -> Turn, a: Agent, n: nat) {
    && WereAsked(end, a) && end.executed == ExpectedRuns(env, a, n)
    && |Outputs(end.events)| <= n <= |Outputs(end.events)| + 1
    && (ending.Finished? ==> n == |Outputs(end.events)|)
  }

  /** The ending of a loop whose iteration does not continue it. */
  function EndingOf(end: TurnEnd): Ending {
    match end
    case Abort => Aborted
    case Fail => Failed
    case _ => Finished
  }

  lemma {:induction false} LastTurnIsAllowed(s: State, i: nat, env: nat -> Turn, a: Agent) returns (n: nat)
    requires s.executed == ExpectedRuns(env, a, i) && WereAsked(s, a) && IsAt(s, i)
    requires !AfterTurn(s, i, env(i), a).1.Continue?
    ensures i <= n <= i + 1
    ensures var (next, end) := AfterTurn(s, i, env(i), a); IsAllowed(next, EndingOf(end), env, a, n)
  {
    TurnRunsAllowed(s, i, env, a);
    TurnKeepsTrace(s, i, env(i), a);
    var (next, end) := AfterTurn(s, i, env(i), a);
    n := if next.executed == s.executed then i else i + 1;
  }

  /**
   * A tool is called in an iteration exactly when it is known and needs no approval, or its approval
   * was asked for in that iteration and given, or no client is there to ask and it is no MCP tool;
   * and it is called once. Only the iteration a loop was stopped in may lack its call.
   */
  lemma {:induction false} LoopRunsAllowed(s: State, i: nat, maxIters: nat, env: nat -> Turn, a: Agent) returns (n: nat)
    requires s.executed == ExpectedRuns(env, a, i) && WereAsked(s, a) && IsAt(s, i) && i <= maxIters
    ensures i <= n <= maxIters
    ensures var (end, ending) := AfterLoop(s, i, maxIters, env, a); IsAllowed(end, ending, env, a, n)
    decreases maxIters - i
  {
    if i == maxIters {
      n := i;
    } else {
      var (next, end) := AfterTurn(s, i, env(i), a);
      if end.Continue? {
        TurnRunsAllowed(s, i, env, a);
        TurnKeepsTrace(s, i, env(i), a);
        n := LoopRunsAllowed(next, i + 1, maxIters, env, a);
      } else {
        n := LastTurnIsAllowed(s, i, env, a);
      }
    }
  }

  /** The calls of every run of the loop. */
  lemma EveryRunIsAllowed(maxIters: nat, env: nat -> Turn, a: Agent) returns (n: nat)
    ensures n <= maxIters
    ensures var (end, ending) := AfterLoop(START, 0, maxIters, env, a); IsAllowed(end, ending, env, a, n)
  {
    n := LoopRunsAllowed(START, 0, maxIters, env, a);
  }

  // -------------------------------------------------------------------------------------------
  // What each iteration shows and records
  // -------------------------------------------------------------------------------------------

  /** The client is asked about a known tool that needs approval. */
  predicate IsAsked(t: Turn, a: Agent) {
    && t.prediction.Some? && a.hasClient
    && t.prediction.value.tool in a.tools && a.tools[t.prediction.value.tool].requiresApproval
  }

  /**
   * What the agent is told: of a call that may run its result or error; else that the tool is not
   * known, that the client denied it, or that there was no client to ask.
   */
  function ExpectedObservation(t: Turn, a: Agent): string
    requires t.prediction.Some? && (MayRun(t, a) ==> !t.outcome.CallAborts?)
  {
    if MayRun(t, a) then t.outcome.text
    else if t.prediction.value.tool !in a.tools then UnknownTool(t.prediction.value.tool)
    else if a.hasClient then DENIED
    else Blocked(t.prediction.value.tool)
  }

  /** Something ends the loop in this iteration. */
  predicate Stops(t: Turn, a: Agent) {
    || t.prediction.None? || t.thoughtAborts || t.prediction.value.tool == FINISH || t.startAborts
    || (IsAsked(t, a) && (t.requestAborts || t.answer.AnswerAborts?))
    || (MayRun(t, a) && t.outcome.CallAborts?) || t.resultAborts
  }

  /** The events of a whole iteration before its result. */
  function ExpectedStart(t: Turn, a: Agent, i: nat): seq<Event>
    requires t.prediction.Some?
  {
    var p := t.prediction.value;
    [Thought(p.thought), ToolStart(p.tool)] + (if IsAsked(t, a) then [ApprovalRequest(i, p.tool)] else [])
  }

  function ExpectedRound(t: Turn, a: Agent, i: nat): seq<Event>
    requires !Stops(t, a)
  {
    ExpectedStart(t, a, i) + [ToolResult(t.prediction.value.tool, ExpectedObservation(t, a))]
  }

  /** No iteration before `n` ends the loop. */
  ghost predicate GoesOn(env: nat -> Turn, a: Agent, n: nat) {
    forall k: nat | k < n :: !Stops(env(k), a)
  }

  ghost function ExpectedEvents(env: nat -> Turn, a: Agent, n: nat): seq<Event>
    requires GoesOn(env, a, n)
  {
    if n == 0 then [] else ExpectedEvents(env, a, n - 1) + ExpectedRound(env(n - 1), a, n - 1)
  }

  /** The trajectory has the thought, the tool's name, its arguments and the observation of iteration `k`. */
  predicate IsRecorded(trajectory: map<Key, string>, t: Turn, a: Agent, k: nat)
    requires !Stops(t, a)
  {
    && NotedIn(trajectory, t, k)
    && ObservationKey(k) in trajectory && trajectory[ObservationKey(k)] == ExpectedObservation(t, a)
  }

  predicate NotedIn(trajectory: map<Key, string>, t: Turn, k: nat)
    requires t.prediction.Some?
  {
    var p := t.prediction.value;
    && {ThoughtKey(k), NameKey(k), ArgsKey(k)} <= trajectory.Keys
    && trajectory[ThoughtKey(k)] == p.thought && trajectory[NameKey(k)] == p.tool && trajectory[ArgsKey(k)] == p.args
  }

  /** After `n` iterations: their events, their records and nothing else. */
  ghost predicate IsExact(s: State, env: nat -> Turn, a: Agent, n: nat) {
    && GoesOn(env, a, n) && s.events == ExpectedEvents(env, a, n)
    && (forall k: nat | k < n :: IsRecorded(s.trajectory, env(k), a, k))
    && (forall key | key in s.trajectory :: key.i < n)
  }

  lemma {:induction false} TurnStopsIff(s: State, i: nat, t: Turn, a: Agent)
    ensures AfterTurn(s, i, t, a).1.Continue? <==> !Stops(t, a)
  {
  }

  /** An iteration that does not end the loop adds exactly its round and its record. */
  lemma {:induction false} TurnIsExact(s: State, i: nat, t: Turn, a: Agent)
    requires !Stops(t, a)
    ensures var (next, end) := AfterTurn(s, i, t, a);
            && end == Continue
            && next.events == s.events + ExpectedRound(t, a, i)
            && next.trajectory == Recorded(s.trajectory, t, a, i)
  {
  }

  /** The trajectory after the iteration `i` of `t`. */
  function Recorded(trajectory: map<Key, string>, t: Turn, a: Agent, i: nat): map<Key, string>
    requires !Stops(t, a)
  {
    Noted(State([], trajectory, []), i, t.prediction.value).trajectory[ObservationKey(i) := ExpectedObservation(t, a)]
  }

  lemma NewRecord(trajectory: map<Key, string>, t: Turn, a: Agent, i: nat)
    requires !Stops(t, a)
    ensures IsRecorded(Recorded(trajectory, t, a, i), t, a, i)
    ensures Recorded(trajectory, t, a, i).Keys
         == trajectory.Keys + {ThoughtKey(i), NameKey(i), ArgsKey(i), ObservationKey(i)}
  {
  }

  lemma OldRecord(trajectory: map<Key, string>, t: Turn, a: Agent, i: nat, old': Turn, k: nat)
    requires !Stops(t, a) && !Stops(old', a) && k != i && IsRecorded(trajectory, old', a, k)
    ensures IsRecorded(Recorded(trajectory, t, a, i), old', a, k)
  {
  }

  lemma NextRecords(s: State, next: State, env: nat -> Turn, a: Agent, i: nat)
    requires IsExact(s, env, a, i) && !Stops(env(i), a)
    requires next.events == s.events + ExpectedRound(env(i), a, i)
    requires next.trajectory == Recorded(s.trajectory, env(i), a, i)
    ensures IsExact(next, env, a, i + 1)
  {
    NewRecord(s.trajectory, env(i), a, i);
    forall k: nat | k < i + 1 ensures !Stops(env(k), a) && IsRecorded(next.trajectory, env(k), a, k) {
      if k < i {
        OldRecord(s.trajectory, env(i), a, i, env(k), k);
      }
    }
    assert ExpectedEvents(env, a, i + 1) == ExpectedEvents(env, a, i) + ExpectedRound(env(i), a, i);
  }

  /** How much of its round an iteration shows when it ends the loop. */
  function Shown(t: Turn, a: Agent): nat
    requires t.prediction.Some?
  {
    if t.thoughtAborts then 0
    else if t.prediction.value.tool == FINISH || t.startAborts then 1
    else if IsAsked(t, a) && !t.requestAborts then 3
    else 2
  }

  /** Iteration `i` is noted, and what was recorded of earlier ones stays. */
  ghost predicate KeepsNotes(before: map<Key, string>, n: map<Key, string>, t: Turn, i: nat)
    requires t.prediction.Some?
  {
    && NotedIn(n, t, i)
    && (forall key | key in before && key.i < i :: key in n && n[key] == before[key])
    && (forall key | key in n :: key.i <= i || key in before)
  }

  /** The iteration that ends the loop shows the beginning of a round, and leaves earlier records alone. */
  ghost predicate IsCutShort(s: State, end: State, ending: Ending, t: Turn, a: Agent, i: nat) {
    && (t.prediction.None? ==> ending == Failed && end == s)
    && (t.prediction.Some? ==> KeepsNotes(s.trajectory, end.trajectory, t, i)
                                && Shown(t, a) <= |ExpectedStart(t, a, i)|
                                && end.events == s.events + ExpectedStart(t, a, i)[..Shown(t, a)])
    && (ending == Finished <==> t.prediction.Some? && !t.thoughtAborts && t.prediction.value.tool == FINISH)
  }

  lemma {:induction false} LastTurnShows(s: State, i: nat, t: Turn, a: Agent)
    requires Stops(t, a) && t.prediction.Some?
    ensures Shown(t, a) <= |ExpectedStart(t, a, i)|
    ensures AfterTurn(s, i, t, a).0.events == s.events + ExpectedStart(t, a, i)[..Shown(t, a)]
  {
    var p, start := t.prediction.value, ExpectedStart(t, a, i);
    assert start[..0] == [] && start[..1] == [Thought(p.thought)] && start[..2] == [Thought(p.thought), ToolStart(p.tool)];
  }

  lemma NotingKeepsNotes(s: State, t: Turn, i: nat, output: string)
    requires t.prediction.Some?
    ensures var noted := Noted(s, i, t.prediction.value);
            && KeepsNotes(s.trajectory, noted.trajectory, t, i)
            && KeepsNotes(s.trajectory, Observed(noted, i, output).trajectory, t, i)
  {
  }

  lemma {:induction false} LastTurnTrajectory(s: State, i: nat, t: Turn, a: Agent) returns (output: string)
    requires Stops(t, a) && t.prediction.Some?
    ensures var noted, n := Noted(s, i, t.prediction.value), AfterTurn(s, i, t, a).0.trajectory;
            n == noted.trajectory || n == Observed(noted, i, output).trajectory
  {
    var n := AfterTurn(s, i, t, a).0.trajectory;
    output := if ObservationKey(i) in n then n[ObservationKey(i)] else [];
  }

  lemma LastTurnNotes(s: State, i: nat, t: Turn, a: Agent)
    requires Stops(t, a) && t.prediction.Some?
    ensures KeepsNotes(s.trajectory, AfterTurn(s, i, t, a).0.trajectory, t, i)
  {
    var output := LastTurnTrajectory(s, i, t, a);
    NotingKeepsNotes(s, t, i, output);
  }

  lemma {:induction false} LastTurnIsCutShort(s: State, i: nat, t: Turn, a: Agent)
    requires Stops(t, a)
    ensures var (next, end) := AfterTurn(s, i, t, a); IsCutShort(s, next, EndingOf(end), t, a, i)
  {
    if t.prediction.Some? {
      LastTurnShows(s, i, t, a);
      LastTurnNotes(s, i, t, a);
    }
  }

  /**
   * Every run: the loop goes through the iterations before the first one that ends it, shows each one's
   * round and records it, and ends in the way of that one; or it uses up all its iterations.
   */
  ghost predicate IsExactRun(end: State, ending: Ending, env: nat -> Turn, a: Agent, n: nat, maxIters: nat) {
    && n <= maxIters && GoesOn(env, a, n)
    && (n == maxIters ==> ending == Finished && IsExact(end, env, a, n))
    && (n < maxIters ==> Stops(env(n), a)
                         && exists s :: IsExact(s, env, a, n) && IsCutShort(s, end, ending, env(n), a, n))
  }

  lemma {:induction false} LoopIsExact(s: State, i: nat, maxIters: nat, env: nat -> Turn, a: Agent) returns (n: nat)
    requires IsExact(s, env, a, i) && i <= maxIters
    ensures var (end, ending) := AfterLoop(s, i, maxIters, env, a); IsExactRun(end, ending, env, a, n, maxIters)
    decreases maxIters - i
  {
    if i == maxIters {
      n := i;
    } else {
      var (next, end) := AfterTurn(s, i, env(i), a);
      TurnStopsIff(s, i, env(i), a);
      if end.Continue? {
        TurnIsExact(s, i, env(i), a);
        NextRecords(s, next, env, a, i);
        n := LoopIsExact(next, i + 1, maxIters, env, a);
      } else {
        n := i;
        LastTurnIsCutShort(s, i, env(i), a);
      }
    }
  }

  lemma EveryRunIsExact(maxIters: nat, env: nat -> Turn, a: Agent) returns (n: nat)
    ensures var (end, ending) := AfterLoop(START, 0, maxIters, env, a); IsExactRun(end, ending, env, a, n, maxIters)
  {
    n := LoopIsExact(START, 0, maxIters, env, a);
  }
}
