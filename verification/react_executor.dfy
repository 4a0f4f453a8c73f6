/**
 * The ReAct loop: call the model, answer its tool calls with the client's
 * responses, feed the results back, and repeat until the model answers
 * without tools, the user interrupts, or ten rounds have run. The model's
 * replies and the client's responses are a script indexed by round; the
 * loop runs with no event publisher.
 */
module ReactLoop {
  import opened Wrappers
  import opened JavaStrings
  import opened ChatMemory
  import WebSocketProtocol

  const MAX_ITERATIONS: nat := 10

  const REJECTED_TEXT: string := "工具调用被拒绝"
  const FAILED_PREFIX: string := "工具执行失败: "
  const WAIT_FAILED_PREFIX: string := "等待响应超时或被中断: "
  const INTERRUPTED_TEXT: string := "执行已被用户中断"
  const NULL_RESPONSE_TEXT: string := "LLM 返回空响应"
  const LLM_FAILED_PREFIX: string := "LLM 调用失败: "
  const TOOLS_FAILED_PREFIX: string := "工具调用处理失败: "

  function MaxIterationsText(): string {
    "达到最大迭代次数 " + IntToString(MAX_ITERATIONS) + "，执行终止"
  }

  /** AgentToolCallResponseData as far as the loop reads it; a Boolean may be null. */
  datatype ToolResponse = ToolResponse(
    toolName: Option<string>,
    isAllow: Option<bool>,
    success: Option<bool>,
    result: Option<string>,
    error: Option<string>)

  /**
   * buildToolResultText: a call not explicitly allowed is a rejection, an
   * allowed call not explicitly successful is a failure with its error, and
   * otherwise the result as it is (possibly null).
   */
  function BuildToolResultText(d: ToolResponse): (r: Option<string>)
    ensures d.isAllow != Some(true) ==> r == Some(REJECTED_TEXT)
    ensures d.isAllow == Some(true) && d.success != Some(true) ==> r == Some(FAILED_PREFIX + Concatenated(d.error))
    ensures d.isAllow == Some(true) && d.success == Some(true) ==> r == d.result
  {
    if d.isAllow != Some(true) then Some(REJECTED_TEXT)
    else if d.success != Some(true) then Some(FAILED_PREFIX + Concatenated(d.error))
    else d.result
  }

  /** How the wait for one tool call ended. */
  datatype WaitOutcome = Responded(data: ToolResponse) | WaitFailed(reason: Option<string>)

  /** The response the loop works with: a failed wait becomes a disallowed, unsuccessful response. */
  function Settle(toolName: string, w: WaitOutcome): (r: ToolResponse)
    ensures w.Responded? ==> r == w.data
    ensures w.WaitFailed? ==> r.isAllow == Some(false) && r.success == Some(false)
    ensures w.WaitFailed? ==> r.error == Some(WAIT_FAILED_PREFIX + Concatenated(w.reason))
  {
    match w
    case Responded(data) => data
    case WaitFailed(reason) =>
      ToolResponse(Some(toolName), Some(false), Some(false), None, Some(WAIT_FAILED_PREFIX + Concatenated(reason)))
  }

  /** A wait that failed reads to the model as a rejection, whatever the reason. */
  lemma FailedWaitIsRejection(toolName: string, reason: Option<string>)
    ensures BuildToolResultText(Settle(toolName, WaitFailed(reason))) == Some(REJECTED_TEXT)
  {
  }

  /** The response data of an AGENT_TOOL_CALL_RESPONSE message as the loop receives it. */
  function Received(p: WebSocketProtocol.Payload): (d: ToolResponse)
    requires p.ToolCallResponseData?
    ensures d.isAllow == p.isAllow && d.success == p.success && d.result == p.result && d.error == p.error
  {
    ToolResponse(p.toolName, p.isAllow, p.success, p.result, p.error)
  }

  /**
   * What the client's two answers become for the model: a denial is a
   * rejection; an allowance passes the result on success and the error
   * otherwise.
   */
  lemma ClientAnswersReachModel(sessionCode: string, requestId: string, toolName: string, toolArgs: string,
                                isClientTool: bool, result: Option<string>, success: Option<bool>, error: Option<string>, now: nat)
    ensures var deny := WebSocketProtocol.ToolCallDeny(sessionCode, requestId, toolName, toolArgs, isClientTool, now).data.value;
      BuildToolResultText(Received(deny)) == Some(REJECTED_TEXT)
    ensures var allow := WebSocketProtocol.ToolCallAllow(sessionCode, requestId, toolName, toolArgs, isClientTool,
                                                          result, success, error, now).data.value;
      BuildToolResultText(Received(allow)) == if success == Some(true) then result else Some(FAILED_PREFIX + Concatenated(error))
  {
  }

  /** Only an allowed and successful call passes its result through. */
  lemma ResultPassesOnlyWhenAllowedAndSuccessful(d: ToolResponse)
    ensures BuildToolResultText(d) == d.result || BuildToolResultText(d) == Some(REJECTED_TEXT)
      || BuildToolResultText(d) == Some(FAILED_PREFIX + Concatenated(d.error))
    ensures d.result.Some? && d.result.value != REJECTED_TEXT && BuildToolResultText(d) == d.result
      ==> d.isAllow == Some(true)
    ensures d.result.Some? && d.result.value != REJECTED_TEXT && d.result.value != FAILED_PREFIX + Concatenated(d.error)
      && BuildToolResultText(d) == d.result
      ==> d.isAllow == Some(true) && d.success == Some(true)
  {
  }

  /** One tool call the model asked for, with how the client's answer to it arrived. */
  datatype Call = Call(request: ToolRequest, wait: WaitOutcome)

  /** What the model does in a round: no response, a failed call, or a reply with zero or more tool calls. */
  datatype Round =
    | NullResponse
    | LlmFailed(message: Option<string>)
    | Reply(text: Option<string>, calls: seq<Call>)

  datatype ToolChoice = Unspecified | Auto | Required

  datatype PromptType = Thinking | ToolCalling | ToolComplete | Error | Interrupted

  datatype Prompt = Prompt(kind: PromptType, text: Option<string>)

  /**
   * The result messages for the calls, in call order; None when a result
   * text is null, which makes building the message throw.
   */
  function ResultMessages(calls: seq<Call>): (r: Option<seq<ChatMessage>>)
    ensures r.Some? ==> |r.value| == |calls|
  {
    if calls == [] then Some([])
    else
      var text := BuildToolResultText(Settle(calls[0].request.name, calls[0].wait));
      var rest := ResultMessages(calls[1..]);
      if text.None? || rest.None? then None
      else Some([ResultFor(calls[0].request, text.value)] + rest.value)
  }

  /** The result text of the k-th call, the one its result message carries. */
  function ResultText(calls: seq<Call>, k: nat): Option<string>
    requires k < |calls|
  {
    BuildToolResultText(Settle(calls[k].request.name, calls[k].wait))
  }

  /**
   * The results are built exactly when every call's result text is non-null,
   * and then the k-th message answers the k-th call with its text.
   */
  lemma {:induction false} ResultMessagesSpec(calls: seq<Call>)
    ensures ResultMessages(calls).Some? ==> forall k :: 0 <= k < |calls| ==>
      ResultText(calls, k).Some? && ResultMessages(calls).value[k] == ResultFor(calls[k].request, ResultText(calls, k).value)
    ensures ResultMessages(calls).None? <==> exists k :: 0 <= k < |calls| && ResultText(calls, k).None?
  {
    if calls != [] {
      var tail := calls[1..];
      ResultMessagesSpec(tail);
      assert forall k :: 1 <= k < |calls| ==> ResultText(calls, k) == ResultText(tail, k - 1);
      if ResultText(calls, 0).None? {
        assert ResultMessages(calls).None?;
      } else if ResultMessages(tail).None? {
        var j :| 0 <= j < |tail| && ResultText(tail, j).None?;
        assert ResultText(calls, j + 1).None?;
      } else {
        var r := ResultMessages(calls).value;
        assert r == [ResultFor(calls[0].request, ResultText(calls, 0).value)] + ResultMessages(tail).value;
        forall k | 0 <= k < |calls|
          ensures ResultText(calls, k).Some? && r[k] == ResultFor(calls[k].request, ResultText(calls, k).value)
        {
          if k > 0 {
            assert r[k] == ResultMessages(tail).value[k - 1];
          }
        }
      }
    }
  }

  function Requests(calls: seq<Call>): (r: seq<ToolRequest>)
    ensures |r| == |calls| && forall k :: 0 <= k < |calls| ==> r[k] == calls[k].request
  {
    if calls == [] then [] else [calls[0].request] + Requests(calls[1..])
  }

  /** The effects of the loop: the prompts shown, the memory afterwards, and the tool choice of each model call. */
  datatype Trace = Trace(prompts: seq<Prompt>, memory: seq<ChatMessage>, choices: seq<ToolChoice>)

  predicate LaterRoundsAuto(choices: seq<ToolChoice>) {
    forall k :: 1 <= k < |choices| ==> choices[k] == Auto
  }

  /**
   * executeNextIteration from round `i`: `interrupted(k)` is whether the
   * user has interrupted by the time round k starts, `script(k)` is what the
   * model does in round k, and `toolsError` is the text of the exception a
   * null result text raises.
   */
  function Run(i: nat, choice: ToolChoice, memory: seq<ChatMessage>, script: nat -> Round,
               interrupted: nat -> bool, toolsError: string): (r: Trace)
    ensures memory <= r.memory
    ensures |r.choices| <= if i >= MAX_ITERATIONS then 0 else MAX_ITERATIONS - i
    ensures r.choices != [] ==> r.choices[0] == choice
    ensures LaterRoundsAuto(r.choices)
    decreases MAX_ITERATIONS - i
  {
    if i >= MAX_ITERATIONS then Trace([Prompt(Error, Some(MaxIterationsText()))], memory, [])
    else if interrupted(i) then Trace([Prompt(Interrupted, Some(INTERRUPTED_TEXT))], memory, [])
    else
      match script(i)
      case NullResponse => Trace([Prompt(Error, Some(NULL_RESPONSE_TEXT))], memory, [choice])
      case LlmFailed(message) => Trace([Prompt(Error, Some(LLM_FAILED_PREFIX + Concatenated(message)))], memory, [choice])
      case Reply(text, calls) =>
        var ai := AiMessage(text, Requests(calls));
        if calls == [] then Trace([], memory + [ai], [choice])
        else
          var announced := [Prompt(ToolCalling, Some("检测到 " + IntToString(|calls|) + " 个工具调用"))];
          match ResultMessages(calls)
          case None =>
            Trace(announced + [Prompt(Error, Some(TOOLS_FAILED_PREFIX + toolsError))], memory + [ai], [choice])
          case Some(results) =>
            var completed := Prompt(ToolComplete, Some("已完成 " + IntToString(|results|) + " 个工具调用，继续分析..."));
            var rest := Run(i + 1, Auto, memory + [ai] + results, script, interrupted, toolsError);
            assert memory <= memory + [ai] + results;
            Trace(announced + [completed] + rest.prompts, rest.memory, [choice] + rest.choices)
  }

  /** executeReactLoop: a thinking prompt, then the rounds from zero. */
  function ExecuteReactLoop(choice: ToolChoice, memory: seq<ChatMessage>, script: nat -> Round,
                            interrupted: nat -> bool, toolsError: string): (r: Trace)
    ensures |r.prompts| >= 1 && r.prompts[0] == Prompt(Thinking, None)
    ensures |r.choices| <= MAX_ITERATIONS
    ensures memory <= r.memory
  {
    var t := Run(0, choice, memory, script, interrupted, toolsError);
    Trace([Prompt(Thinking, None)] + t.prompts, t.memory, t.choices)
  }

  /** A round in which every call is answered with an allowed, successful, non-null result. */
  predicate ToolRound(round: Round) {
    && round.Reply?
    && round.calls != []
    && ResultMessages(round.calls).Some?
  }

  /**
   * A model that keeps asking for tools, with no interrupt, is stopped by
   * the iteration cap: exactly the remaining rounds' worth of model calls,
   * and the last prompt reports the cap.
   */
  lemma {:induction false} RunawayStopsAtCap(i: nat, choice: ToolChoice, memory: seq<ChatMessage>, script: nat -> Round,
                                             interrupted: nat -> bool, toolsError: string)
    requires i <= MAX_ITERATIONS
    requires ToolRoundsFrom(i, script, interrupted)
    ensures EndsAtCap(Run(i, choice, memory, script, interrupted, toolsError), MAX_ITERATIONS - i)
    decreases MAX_ITERATIONS - i
  {
    if i < MAX_ITERATIONS {
      var grown := ToolRoundStep(i, choice, memory, script, interrupted, toolsError);
      var r := Run(i, choice, memory, script, interrupted, toolsError);
      var rest := Run(i + 1, Auto, grown, script, interrupted, toolsError);
      RunawayStopsAtCap(i + 1, Auto, grown, script, interrupted, toolsError);
      CapStep(r, rest, choice, MAX_ITERATIONS - i - 1);
    } else {
      CapReached(choice, memory, script, interrupted, toolsError);
    }
  }

  /** A trace with n model calls whose last prompt is the cap's error. */
  predicate EndsAtCap(t: Trace, n: nat) {
    && |t.choices| == n
    && |t.prompts| >= 1
    && t.prompts[|t.prompts| - 1] == Prompt(Error, Some(MaxIterationsText()))
  }

  /** Every round from i to the cap is an uninterrupted tool round. */
  predicate ToolRoundsFrom(i: nat, script: nat -> Round, interrupted: nat -> bool)
    decreases MAX_ITERATIONS - i
  {
    i < MAX_ITERATIONS ==> !interrupted(i) && ToolRound(script(i)) && ToolRoundsFrom(i + 1, script, interrupted)
  }

  lemma {:induction false} ToolRoundsFromAll(i: nat, script: nat -> Round, interrupted: nat -> bool)
    requires forall k :: i <= k < MAX_ITERATIONS ==> !interrupted(k) && ToolRound(script(k))
    ensures ToolRoundsFrom(i, script, interrupted)
    decreases MAX_ITERATIONS - i
  {
    if i < MAX_ITERATIONS {
      ToolRoundsFromAll(i + 1, script, interrupted);
    }
  }

  /** A trace two prompts and one model call longer than one ending with the cap's error ends with it too. */
  lemma CapStep(r: Trace, rest: Trace, choice: ToolChoice, n: nat)
    requires r.choices == [choice] + rest.choices && |r.prompts| == 2 + |rest.prompts| && r.prompts[2..] == rest.prompts
    requires EndsAtCap(rest, n)
    ensures EndsAtCap(r, n + 1)
  {
    assert r.prompts[|r.prompts| - 1] == rest.prompts[|rest.prompts| - 1];
  }

  /** Once ten rounds have run, the loop only reports the cap. */
  lemma CapReached(choice: ToolChoice, memory: seq<ChatMessage>, script: nat -> Round,
                   interrupted: nat -> bool, toolsError: string)
    ensures Run(MAX_ITERATIONS, choice, memory, script, interrupted, toolsError)
      == Trace([Prompt(Error, Some(MaxIterationsText()))], memory, [])
  {
  }

  /**
   * A tool round shows two prompts, records the model's message and the
   * results, and hands over to the next round with the tool choice reset to
   * Auto; everything after it is what the next round produces.
   */
  lemma ToolRoundStep(i: nat, choice: ToolChoice, memory: seq<ChatMessage>, script: nat -> Round,
                      interrupted: nat -> bool, toolsError: string) returns (grown: seq<ChatMessage>)
    requires i < MAX_ITERATIONS && !interrupted(i) && ToolRound(script(i))
    ensures grown == memory + [AiMessage(script(i).text, Requests(script(i).calls))] + ResultMessages(script(i).calls).value
    ensures var rest := Run(i + 1, Auto, grown, script, interrupted, toolsError);
      var r := Run(i, choice, memory, script, interrupted, toolsError);
      && r.memory == rest.memory
      && r.choices == [choice] + rest.choices
      && |r.prompts| == 2 + |rest.prompts| && r.prompts[2..] == rest.prompts
  {
    grown := memory + [AiMessage(script(i).text, Requests(script(i).calls))] + ResultMessages(script(i).calls).value;
  }

  /** The whole loop against a runaway model: ten model calls, ending with the cap's error. */
  lemma RunawayLoop(choice: ToolChoice, memory: seq<ChatMessage>, script: nat -> Round,
                    interrupted: nat -> bool, toolsError: string)
    requires forall k :: 0 <= k < MAX_ITERATIONS ==> !interrupted(k) && ToolRound(script(k))
    ensures var r := ExecuteReactLoop(choice, memory, script, interrupted, toolsError);
      && |r.choices| == MAX_ITERATIONS
      && r.prompts[|r.prompts| - 1] == Prompt(Error, Some(MaxIterationsText()))
  {
    ToolRoundsFromAll(0, script, interrupted);
    RunawayStopsAtCap(0, choice, memory, script, interrupted, toolsError);
  }

  /** An interrupt seen at the start of a round stops the loop before any model call. */
  lemma InterruptStops(i: nat, choice: ToolChoice, memory: seq<ChatMessage>, script: nat -> Round,
                       interrupted: nat -> bool, toolsError: string)
    requires i < MAX_ITERATIONS && interrupted(i)
    ensures Run(i, choice, memory, script, interrupted, toolsError)
      == Trace([Prompt(Interrupted, Some(INTERRUPTED_TEXT))], memory, [])
  {
  }

  /** A reply without tool calls ends the loop with that reply as the last memory entry. */
  lemma AnswerEnds(i: nat, choice: ToolChoice, memory: seq<ChatMessage>, script: nat -> Round,
                   interrupted: nat -> bool, toolsError: string)
    requires i < MAX_ITERATIONS && !interrupted(i) && script(i).Reply? && script(i).calls == []
    ensures var r := Run(i, choice, memory, script, interrupted, toolsError);
      && r.memory == memory + [AiMessage(script(i).text, [])]
      && r.choices == [choice]
      && r.prompts == []
  {
  }

  /**
   * A tool round adds the model's message and then one result per call, in
   * the order the model asked for them, before the next round starts.
   */
  lemma ToolRoundRecordsResults(i: nat, choice: ToolChoice, memory: seq<ChatMessage>, script: nat -> Round,
                                interrupted: nat -> bool, toolsError: string)
    requires i < MAX_ITERATIONS && !interrupted(i) && ToolRound(script(i))
    ensures var calls := script(i).calls;
      var r := Run(i, choice, memory, script, interrupted, toolsError);
      && |memory| + 1 + |calls| <= |r.memory|
      && r.memory[|memory|] == AiMessage(script(i).text, Requests(calls))
      && forall k :: 0 <= k < |calls| ==>
        && r.memory[|memory| + 1 + k].ToolResultMessage?
        && r.memory[|memory| + 1 + k].id == calls[k].request.id
  {
    var calls := script(i).calls;
    var results := ResultMessages(calls).value;
    var ai := AiMessage(script(i).text, Requests(calls));
    var grown := ToolRoundStep(i, choice, memory, script, interrupted, toolsError);
    var rest := Run(i + 1, Auto, grown, script, interrupted, toolsError);
    ResultMessagesSpec(calls);
    assert grown <= rest.memory;
    assert forall k :: 0 <= k < |calls| ==> rest.memory[|memory| + 1 + k] == grown[|memory| + 1 + k] == results[k];
  }
}
