/** The ReAct agent as a two-node graph: ask the language model, run the tools it calls for, ask again. */
module ReAct {
  import opened Wrappers
  import opened StateGraph

  datatype ToolCall = ToolCall(id: string, name: string, arguments: string)

  datatype Message = Message(role: string, content: string, toolCalls: seq<ToolCall>, toolCallId: string)

  /** The part of the agent state a run changes. */
  datatype State = State(messages: seq<Message>, allToolCalls: seq<ToolCall>, output: string, steps: int, totalTokens: int)

  datatype Response = Response(content: string, toolCalls: seq<ToolCall>, tokens: int)

  datatype Routed = RouteError(err: string) | Output(text: string) | Content(text: string)

  /** Everything outside: the model after its retries, the optional knowledge search, the other tools. The numbers are
      the step of the run and the position of the call, so answers may differ every time. */
  datatype World = World(
    llm: (seq<Message>, nat) -> Attempt<Response>,
    rag: Option<(ToolCall, nat, nat) -> Attempt<string>>,
    route: (ToolCall, nat, nat) -> Routed)

  const LLM := "llm"
  const TOOL := "tool"

  function Plain(content: string): Message {
    Message("assistant", content, [], "")
  }

  function Calling(calls: seq<ToolCall>): Message {
    Message("assistant", "", calls, "")
  }

  // ----- The nodes -----

  function LlmNode(w: World, s: State, step: nat): NodeResult<State> {
    match w.llm(s.messages, step)
    case Bad(e) => Failed(s, "react llm node: " + e)
    case Good(resp) =>
      var s1 := s.(steps := s.steps + 1, totalTokens := s.totalTokens + resp.tokens);
      if resp.toolCalls == [] then Ok(s1.(output := resp.content, messages := s.messages + [Plain(resp.content)]))
      else Ok(s1.(messages := s.messages + [Calling(resp.toolCalls)]))
  }

  /** Errors of tools become text for the model. */
  function ToolText(w: World, tc: ToolCall, step: nat, i: nat): string {
    if tc.name == "search_knowledge" then
      if w.rag.None? then "error: search_knowledge tool not configured"
      else match w.rag.value(tc, step, i)
        case Good(text) => text
        case Bad(e) => "error: " + e
    else match w.route(tc, step, i)
      case RouteError(e) => "error: " + e
      case Output(text) => text
      case Content(text) => text
  }

  function Reply(w: World, calls: seq<ToolCall>, step: nat, i: nat): Message
    requires i < |calls|
  {
    Message("tool", ToolText(w, calls[i], step, i), [], calls[i].id)
  }

  function Replies(w: World, calls: seq<ToolCall>, step: nat): seq<Message> {
    seq(|calls|, i requires 0 <= i < |calls| => Reply(w, calls, step, i))
  }

  function ToolNode(w: World, s: State, step: nat): NodeResult<State> {
    if s.messages == [] then Ok(s)
    else
      var calls := s.messages[|s.messages| - 1].toolCalls;
      Ok(s.(messages := s.messages + Replies(w, calls, step), allToolCalls := s.allToolCalls + calls))
  }

  /** A tool's output becomes its message, and so does its failure, marked as one; the knowledge search is a tool of its own. */
  lemma ToolAnswers(w: World, tc: ToolCall, step: nat, i: nat)
    ensures tc.name == "search_knowledge" && w.rag.None? ==> ToolText(w, tc, step, i) == "error: search_knowledge tool not configured"
    ensures forall text | tc.name == "search_knowledge" && w.rag.Some? && w.rag.value(tc, step, i) == Good(text) :: ToolText(w, tc, step, i) == text
    ensures forall e | tc.name == "search_knowledge" && w.rag.Some? && w.rag.value(tc, step, i) == Bad(e) :: ToolText(w, tc, step, i) == "error: " + e
    ensures forall text | tc.name != "search_knowledge" && w.route(tc, step, i) == Output(text) :: ToolText(w, tc, step, i) == text
    ensures forall text | tc.name != "search_knowledge" && w.route(tc, step, i) == Content(text) :: ToolText(w, tc, step, i) == text
    ensures forall e | tc.name != "search_knowledge" && w.route(tc, step, i) == RouteError(e) :: ToolText(w, tc, step, i) == "error: " + e
  {
  }

  /** The loop of the tool node. */
  method RunTools(w: World, s: State, step: nat) returns (r: NodeResult<State>)
    ensures r == ToolNode(w, s, step)
    ensures s.messages == [] ==> r == Ok(s)
    ensures s.messages != [] ==>
      var calls := s.messages[|s.messages| - 1].toolCalls;
      && r.Ok? && r.state == s.(messages := r.state.messages, allToolCalls := s.allToolCalls + calls)
      && s.messages <= r.state.messages && |r.state.messages| == |s.messages| + |calls|
      && forall i | 0 <= i < |calls| :: r.state.messages[|s.messages| + i] == Message("tool", ToolText(w, calls[i], step, i), [], calls[i].id)
  {
    if s.messages == [] {
      return Ok(s);
    }
    var last := s.messages[|s.messages| - 1];
    var out := s;
    var i := 0;
    while i < |last.toolCalls|
      invariant 0 <= i <= |last.toolCalls|
      invariant out == s.(messages := s.messages + Replies(w, last.toolCalls, step)[..i], allToolCalls := s.allToolCalls + last.toolCalls[..i])
    {
      var tc := last.toolCalls[i];
      var content;
      if tc.name == "search_knowledge" {
        if w.rag.None? {
          content := "error: search_knowledge tool not configured";
        } else {
          var found := w.rag.value(tc, step, i);
          content := if found.Good? then found.value else "error: " + found.err;
        }
      } else {
        var resp := w.route(tc, step, i);
        match resp {
          case RouteError(e) => content := "error: " + e;
          case Output(text) => content := text;
          case Content(text) => content := text;
        }
      }
      assert content == ToolText(w, tc, step, i);
      out := out.(messages := out.messages + [Message("tool", content, [], tc.id)], allToolCalls := out.allToolCalls + [tc]);
      i := i + 1;
    }
    assert Replies(w, last.toolCalls, step)[..i] == Replies(w, last.toolCalls, step) && last.toolCalls[..i] == last.toolCalls;
    r := Ok(out);
  }

  // ----- The graph -----

  function AfterLlm(s: State): string {
    if s.messages == [] then END
    else
      var last := s.messages[|s.messages| - 1];
      if last.role == "assistant" && last.toolCalls != [] then TOOL else END
  }

  function ReActGraph(w: World): Graph<State> {
    Graph(map[LLM := (s: State, step: nat) => LlmNode(w, s, step), TOOL := (s: State, step: nat) => ToolNode(w, s, step)],
          map[TOOL := LLM],
          map[LLM := (s: State) => AfterLlm(s)],
          LLM)
  }

  method BuildReActGraph(w: World) returns (g: Graph<State>, ok: bool)
    ensures g == ReActGraph(w) && ok
  {
    g := ReActGraph(w);
    ok := Compile(g);
  }

  // ----- Transcripts -----

  /** One round: the calls the model asked for, the tokens it used, and the replies. */
  datatype Block = Block(calls: seq<ToolCall>, tokens: int, replies: seq<Message>)

  /** At least one call, and one reply per call, in order, naming the call. */
  predicate Matched(b: Block) {
    && b.calls != [] && |b.replies| == |b.calls|
    && forall i | 0 <= i < |b.calls| :: b.replies[i] == Message("tool", b.replies[i].content, [], b.calls[i].id)
  }

  function Transcript(blocks: seq<Block>): seq<Message> {
    if blocks == [] then []
    else
      var n := |blocks| - 1;
      Transcript(blocks[..n]) + [Message("assistant", "", blocks[n].calls, "")] + blocks[n].replies
  }

  function Calls(blocks: seq<Block>): seq<ToolCall> {
    if blocks == [] then [] else Calls(blocks[..|blocks| - 1]) + blocks[|blocks| - 1].calls
  }

  function Tokens(blocks: seq<Block>): int {
    if blocks == [] then 0 else Tokens(blocks[..|blocks| - 1]) + blocks[|blocks| - 1].tokens
  }

  /** What the model says after complete rounds, shown the messages so far. */
  function Heard(w: World, s0: State, blocks: seq<Block>): Attempt<Response> {
    w.llm(s0.messages + Transcript(blocks), 2 * |blocks|)
  }

  /** Round i is genuine: its calls and tokens are those of the model's response to the rounds before it, and its replies
      are the tools' answers. */
  predicate RoundOf(w: World, s0: State, blocks: seq<Block>, i: nat)
    requires i < |blocks|
  {
    var b, heard := blocks[i], Heard(w, s0, blocks[..i]);
    && Matched(b)
    && heard.Good? && heard.value.toolCalls == b.calls && heard.value.tokens == b.tokens
    && forall j | 0 <= j < |b.calls| :: b.replies[j].content == ToolText(w, b.calls[j], 2 * i + 1, j)
  }

  ghost predicate Rounds(w: World, s0: State, blocks: seq<Block>) {
    forall i | 0 <= i < |blocks| :: RoundOf(w, s0, blocks, i)
  }

  lemma OneMoreRound(w: World, s0: State, blocks: seq<Block>, b: Block)
    requires Rounds(w, s0, blocks) && RoundOf(w, s0, blocks + [b], |blocks|)
    ensures Rounds(w, s0, blocks + [b])
  {
    var more := blocks + [b];
    forall i | 0 <= i < |more| ensures RoundOf(w, s0, more, i) {
      if i < |blocks| {
        assert more[..i] == blocks[..i] && more[i] == blocks[i];
        assert RoundOf(w, s0, blocks, i);
      }
    }
  }

  /** The state after complete rounds, all of it. */
  function Extend(s0: State, blocks: seq<Block>): State {
    State(s0.messages + Transcript(blocks), s0.allToolCalls + Calls(blocks), s0.output, s0.steps + |blocks|, s0.totalTokens + Tokens(blocks))
  }

  /** The same after the model asked for another round. */
  function Asking(s0: State, blocks: seq<Block>, resp: Response): State {
    var s := Extend(s0, blocks);
    s.(messages := s.messages + [Message("assistant", "", resp.toolCalls, "")], steps := s.steps + 1, totalTokens := s.totalTokens + resp.tokens)
  }

  /** The same after the model gave its final answer. */
  function Answered(s0: State, blocks: seq<Block>, resp: Response): State {
    var s := Extend(s0, blocks);
    s.(messages := s.messages + [Message("assistant", resp.content, [], "")], output := resp.content,
       steps := s.steps + 1, totalTokens := s.totalTokens + resp.tokens)
  }

  /** Where a run can be after k node executions. */
  ghost predicate Shaped(w: World, s0: State, k: nat, c: Config<State>) {
    match c
    case Halted(f, _) => f.Cancelled? || f.NodeFailed?
    case At(node, s) => exists blocks: seq<Block> :: Rounds(w, s0, blocks) && AtPoint(w, s0, k, node, s, blocks)
  }

  predicate AtPoint(w: World, s0: State, k: nat, node: string, s: State, blocks: seq<Block>) {
    var heard := Heard(w, s0, blocks);
    || (node == LLM && k == 2 * |blocks| && s == Extend(s0, blocks))
    || (node == TOOL && k == 2 * |blocks| + 1 && heard.Good? && heard.value.toolCalls != [] && s == Asking(s0, blocks, heard.value))
    || (node == END && k >= 2 * |blocks| + 1 && heard.Good? && heard.value.toolCalls == [] && s == Answered(s0, blocks, heard.value))
  }

  lemma NodesDiffer()
    ensures LLM != TOOL && LLM != END && TOOL != END
  {
    assert LLM[0] == 'l' && TOOL[0] == 't' && END[0] == '_';
  }

  lemma LlmStepShaped(w: World, cancelled: nat -> bool, s0: State, k: nat, blocks: seq<Block>)
    requires Rounds(w, s0, blocks) && k == 2 * |blocks|
    ensures Shaped(w, s0, k + 1, Advance(ReActGraph(w), cancelled, At(LLM, Extend(s0, blocks)), k))
  {
    NodesDiffer();
    var s := Extend(s0, blocks);
    var c := Advance(ReActGraph(w), cancelled, At(LLM, s), k);
    if c.At? {
      assert Heard(w, s0, blocks) == w.llm(s.messages, k);
      var resp := w.llm(s.messages, k).value;
      if resp.toolCalls == [] {
        assert c == At(END, Answered(s0, blocks, resp));
      } else {
        assert c == At(TOOL, Asking(s0, blocks, resp));
      }
      assert AtPoint(w, s0, k + 1, c.current, c.state, blocks);
    }
  }

  /** The tool node turns the model's calls into a genuine round. */
  function RoundFor(w: World, resp: Response, k: nat): Block {
    Block(resp.toolCalls, resp.tokens, Replies(w, resp.toolCalls, k))
  }

  lemma {:induction false} TranscriptGrows(blocks: seq<Block>, b: Block)
    ensures Transcript(blocks + [b]) == Transcript(blocks) + [Message("assistant", "", b.calls, "")] + b.replies
    ensures Calls(blocks + [b]) == Calls(blocks) + b.calls && Tokens(blocks + [b]) == Tokens(blocks) + b.tokens
  {
    assert (blocks + [b])[..|blocks|] == blocks;
  }

  lemma Regroups(a: seq<Message>, b: seq<Message>, c: seq<Message>, d: seq<Message>)
    ensures (a + b) + c + d == a + (b + c + d)
  {
  }

  lemma ToolNodeExtends(w: World, s0: State, blocks: seq<Block>, resp: Response, k: nat)
    ensures ToolNode(w, Asking(s0, blocks, resp), k) == Ok(Extend(s0, blocks + [RoundFor(w, resp, k)]))
  {
    var s, b := Asking(s0, blocks, resp), RoundFor(w, resp, k);
    TranscriptGrows(blocks, b);
    assert s.messages[|s.messages| - 1] == Message("assistant", "", resp.toolCalls, "");
    Regroups(s0.messages, Transcript(blocks), [Message("assistant", "", resp.toolCalls, "")], b.replies);
    assert s0.allToolCalls + Calls(blocks) + resp.toolCalls == s0.allToolCalls + (Calls(blocks) + resp.toolCalls);
  }

  lemma ToolRoundIsGenuine(w: World, s0: State, blocks: seq<Block>)
    requires Rounds(w, s0, blocks) && Heard(w, s0, blocks).Good? && Heard(w, s0, blocks).value.toolCalls != []
    ensures Rounds(w, s0, blocks + [RoundFor(w, Heard(w, s0, blocks).value, 2 * |blocks| + 1)])
  {
    var b := RoundFor(w, Heard(w, s0, blocks).value, 2 * |blocks| + 1);
    assert (blocks + [b])[..|blocks|] == blocks;
    OneMoreRound(w, s0, blocks, b);
  }

  lemma ToolStepShaped(w: World, cancelled: nat -> bool, s0: State, k: nat, blocks: seq<Block>)
    requires Rounds(w, s0, blocks) && k == 2 * |blocks| + 1
    requires Heard(w, s0, blocks).Good? && Heard(w, s0, blocks).value.toolCalls != []
    ensures Shaped(w, s0, k + 1, Advance(ReActGraph(w), cancelled, At(TOOL, Asking(s0, blocks, Heard(w, s0, blocks).value)), k))
  {
    NodesDiffer();
    var resp := Heard(w, s0, blocks).value;
    var more := blocks + [RoundFor(w, resp, k)];
    ToolNodeExtends(w, s0, blocks, resp, k);
    ToolRoundIsGenuine(w, s0, blocks);
    assert AtPoint(w, s0, k + 1, LLM, Extend(s0, more), more);
  }

  lemma NextIsShaped(w: World, cancelled: nat -> bool, s0: State, k: nat, c: Config<State>, blocks: seq<Block>)
    requires c.At? && Rounds(w, s0, blocks) && AtPoint(w, s0, k, c.current, c.state, blocks)
    ensures Shaped(w, s0, k + 1, Advance(ReActGraph(w), cancelled, c, k))
  {
    NodesDiffer();
    if c.current == LLM {
      LlmStepShaped(w, cancelled, s0, k, blocks);
    } else if c.current == TOOL {
      ToolStepShaped(w, cancelled, s0, k, blocks);
    } else {
      assert AtPoint(w, s0, k + 1, END, c.state, blocks);
    }
  }

  lemma StartIsShaped(w: World, s0: State)
    ensures Shaped(w, s0, 0, At(LLM, s0))
  {
    assert Extend(s0, []) == s0;
    assert Rounds(w, s0, []) && AtPoint(w, s0, 0, LLM, s0, []);
  }

  lemma StepIsShaped(w: World, cancelled: nat -> bool, s0: State, k: nat, c: Config<State>)
    requires Shaped(w, s0, k, c)
    ensures Shaped(w, s0, k + 1, Advance(ReActGraph(w), cancelled, c, k))
  {
    if c.At? {
      var blocks: seq<Block> :| Rounds(w, s0, blocks) && AtPoint(w, s0, k, c.current, c.state, blocks);
      NextIsShaped(w, cancelled, s0, k, c, blocks);
    }
  }

  lemma {:induction false} RunIsShaped(w: World, cancelled: nat -> bool, s0: State, k: nat)
    ensures Shaped(w, s0, k, Iterate(ReActGraph(w), cancelled, s0, k))
  {
    if k == 0 {
      StartIsShaped(w, s0);
    } else {
      RunIsShaped(w, cancelled, s0, k - 1);
      StepIsShaped(w, cancelled, s0, k - 1, Iterate(ReActGraph(w), cancelled, s0, k - 1));
    }
  }

  /** A finished run, told round by round: messages, calls, tokens and steps are exactly those of genuine rounds and of the
      model's final answer, which is the output; and the model was asked at most half as often as there were steps to take. */
  ghost predicate FinishedRun(w: World, s0: State, max: nat, s: State, blocks: seq<Block>) {
    && Rounds(w, s0, blocks)
    && Heard(w, s0, blocks).Good?
    && var answer := Heard(w, s0, blocks).value;
    && answer.toolCalls == []
    && s.messages == s0.messages + Transcript(blocks) + [Message("assistant", answer.content, [], "")]
    && s.output == answer.content
    && s.allToolCalls == s0.allToolCalls + Calls(blocks)
    && s.totalTokens == s0.totalTokens + Tokens(blocks) + answer.tokens
    && s.steps == s0.steps + |blocks| + 1
    && |blocks| + 1 <= max / 2
  }

  lemma SuccessfulRunHasShape(w: World, cancelled: nat -> bool, s0: State, max: nat, s: State)
    requires IsOutcome(ReActGraph(w), cancelled, s0, max, Outcome.Done(s))
    ensures exists blocks: seq<Block> :: FinishedRun(w, s0, max, s, blocks)
  {
    NodesDiffer();
    var k: nat :| k < max && Iterate(ReActGraph(w), cancelled, s0, k) == At(END, s);
    RunIsShaped(w, cancelled, s0, k);
    var blocks: seq<Block> :| Rounds(w, s0, blocks) && AtPoint(w, s0, k, END, s, blocks);
    assert FinishedRun(w, s0, max, s, blocks);
  }

  /** A run never meets a missing node or edge: it can only be cancelled, see a node fail, or run out of steps. */
  lemma NoMissingNodeOrEdge(w: World, cancelled: nat -> bool, s0: State, max: nat, r: Outcome<State>)
    requires IsOutcome(ReActGraph(w), cancelled, s0, max, r)
    ensures r.Stopped? ==> r.fault.Cancelled? || r.fault.NodeFailed? || r.fault.MaxStepsReached?
  {
    if r.Stopped? && !r.fault.MaxStepsReached? {
      var k: nat :| k <= max && Iterate(ReActGraph(w), cancelled, s0, k) == Halted(r.fault, r.state);
      RunIsShaped(w, cancelled, s0, k);
    }
  }

  /** A model that fails, its retries included, stops the run with its error; the state is as before the call. */
  lemma {:induction false} ModelFailureStopsRun(w: World, cancelled: nat -> bool, s0: State, max: nat, r: Outcome<State>, k: nat, e: string)
    requires IsOutcome(ReActGraph(w), cancelled, s0, max, r) && k < max && !cancelled(k)
    requires var c := Iterate(ReActGraph(w), cancelled, s0, k); c.At? && c.current == LLM && w.llm(c.state.messages, k) == Bad(e)
    ensures r == Stopped(NodeFailed("react llm node: " + e), Iterate(ReActGraph(w), cancelled, s0, k).state)
  {
    NodesDiffer();
    var c := Iterate(ReActGraph(w), cancelled, s0, k);
    NodeFailureStopsRun(ReActGraph(w), cancelled, s0, max, r, k, c.state, "react llm node: " + e);
  }
}
