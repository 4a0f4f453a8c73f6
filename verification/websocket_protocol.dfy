/**
 * The WebSocket message contract shared by the browser client and the server:
 * the closed set of message kinds, the prompt kinds with their default texts,
 * the envelope every message travels in, and the client's message builders.
 * Clocks are parameters: `idClock` is the reading that becomes a minted
 * request id, `now` the one that becomes the timestamp.
 */
module WebSocketProtocol {
  import opened Wrappers
  import JavaStrings

  datatype MessageType =
    // client to server
    | UserMessage | UserOrder | AgentToolCallResponse | Interrupt | Ping
    // server to client
    | AgentPrompt | AgentStream | AgentComplete | AgentToolCallRequest | Pong

  function TypeName(t: MessageType): string {
    match t
    case UserMessage => "USER_MESSAGE"
    case UserOrder => "USER_ORDER"
    case AgentToolCallResponse => "AGENT_TOOL_CALL_RESPONSE"
    case Interrupt => "INTERRUPT"
    case Ping => "PING"
    case AgentPrompt => "AGENT_PROMPT"
    case AgentStream => "AGENT_STREAM"
    case AgentComplete => "AGENT_COMPLETE"
    case AgentToolCallRequest => "AGENT_TOOL_CALL_REQUEST"
    case Pong => "PONG"
  }

  /** Enum.valueOf: the kind whose name is exactly the text, matched case-sensitively. */
  function ParseType(name: string): (r: Option<MessageType>)
    ensures r.Some? ==> TypeName(r.value) == name
    ensures r.None? ==> forall t: MessageType :: TypeName(t) != name
  {
    if name == "USER_MESSAGE" then Some(UserMessage)
    else if name == "USER_ORDER" then Some(UserOrder)
    else if name == "AGENT_TOOL_CALL_RESPONSE" then Some(AgentToolCallResponse)
    else if name == "INTERRUPT" then Some(Interrupt)
    else if name == "PING" then Some(Ping)
    else if name == "AGENT_PROMPT" then Some(AgentPrompt)
    else if name == "AGENT_STREAM" then Some(AgentStream)
    else if name == "AGENT_COMPLETE" then Some(AgentComplete)
    else if name == "AGENT_TOOL_CALL_REQUEST" then Some(AgentToolCallRequest)
    else if name == "PONG" then Some(Pong)
    else None
  }

  /** Every kind's name reads back as that kind, so the names are pairwise distinct. */
  lemma ParseTypeName(t: MessageType)
    ensures ParseType(TypeName(t)) == Some(t)
  {
  }

  predicate ClientToServer(t: MessageType) {
    t.UserMessage? || t.UserOrder? || t.AgentToolCallResponse? || t.Interrupt? || t.Ping?
  }

  const CLIENT_KINDS: seq<MessageType> := [UserMessage, UserOrder, AgentToolCallResponse, Interrupt, Ping]
  const SERVER_KINDS: seq<MessageType> := [AgentPrompt, AgentStream, AgentComplete, AgentToolCallRequest, Pong]

  /** The enumeration is closed: five distinct kinds each way, and every kind is one of them. */
  lemma KindsPartitioned(t: MessageType)
    ensures ClientToServer(t) <==> t in CLIENT_KINDS
    ensures !ClientToServer(t) <==> t in SERVER_KINDS
    ensures |CLIENT_KINDS| == 5 && |SERVER_KINDS| == 5
    ensures forall i, j :: 0 <= i < j < 5 ==> CLIENT_KINDS[i] != CLIENT_KINDS[j] && SERVER_KINDS[i] != SERVER_KINDS[j]
  {
  }

  datatype PromptType = Thinking | ToolCalling | ToolComplete | Summary | SummaryComplete | Interrupted | Error

  const ALL_PROMPT_TYPES: seq<PromptType> := [Thinking, ToolCalling, ToolComplete, Summary, SummaryComplete, Interrupted, Error]

  /** AGENT_PROMPT_DEFAULT_MESSAGES: the text shown when a prompt carries no message of its own. */
  function DefaultMessage(p: PromptType): (text: string)
    ensures text != ""
  {
    match p
    case Thinking => "Agent正在分析问题..."
    case ToolCalling => "Agent正在调用工具..."
    case ToolComplete => "工具调用已完成，继续分析..."
    case Summary => "Agent正在生成摘要..."
    case SummaryComplete => "摘要已生成完成"
    case Interrupted => "执行已被中断"
    case Error => "执行过程中发生错误"
  }

  /** The default map is total, and no two prompt kinds share a text. */
  lemma DefaultMessagesDistinct(p: PromptType, q: PromptType)
    ensures p in ALL_PROMPT_TYPES
    ensures p != q ==> DefaultMessage(p) != DefaultMessage(q)
  {
  }

  /** The envelope: kind, session, request id, optional text and data, timestamp. */
  datatype Envelope = Envelope(
    msgType: Option<string>,
    sessionCode: Option<string>,
    requestId: Option<string>,
    content: Option<string>,
    data: Option<Payload>,
    timestamp: Option<int>)

  /** The data a message of each kind carries. */
  datatype Payload =
    | UserMessageData(workflowContent: string, toolSchemas: Option<seq<ToolSchema>>)
    | ToolCallResponseData(
        toolCallId: Option<string>, toolName: Option<string>, isClientTool: Option<bool>, isMcpTool: Option<bool>,
        toolArgs: Option<string>, result: Option<string>, isAllow: Option<bool>, success: Option<bool>,
        error: Option<string>)
    | AgentPromptData(promptType: PromptType, message: Option<string>)
    | ToolCallRequestData(requestedTool: string, requestedArgs: string, requestedClientTool: bool)
    | CompleteData

  /** A client tool's schema as the client announces it. */
  datatype ToolSchema = ToolSchema(name: string, description: Option<string>, properties: Option<seq<string>>, required: Option<seq<string>>)

  /** A minted request id: the decimal rendering of the clock. */
  function MintRequestId(idClock: nat): (id: string)
    ensures id != "" && JavaStrings.AllDigits(id)
  {
    JavaStrings.NatToString(idClock)
  }

  function UserMessageOf(sessionCode: string, content: string, workflowContent: string,
                         toolSchemas: Option<seq<ToolSchema>>, idClock: nat, now: nat): (m: Envelope)
    ensures m.msgType == Some(TypeName(UserMessage)) && m.requestId == Some(MintRequestId(idClock))
    ensures m.timestamp == Some(now) && m.sessionCode == Some(sessionCode) && m.content == Some(content)
    ensures m.data == Some(UserMessageData(workflowContent, toolSchemas))
  {
    Envelope(Some("USER_MESSAGE"), Some(sessionCode), Some(MintRequestId(idClock)), Some(content),
             Some(UserMessageData(workflowContent, toolSchemas)), Some(now))
  }

  function UserOrderOf(sessionCode: string, command: string, workflowContent: string, idClock: nat, now: nat): (m: Envelope)
    ensures m.msgType == Some(TypeName(UserOrder)) && m.requestId == Some(MintRequestId(idClock))
    ensures m.timestamp == Some(now) && m.content == Some(command)
    ensures m.data == Some(UserMessageData(workflowContent, None))
  {
    Envelope(Some("USER_ORDER"), Some(sessionCode), Some(MintRequestId(idClock)), Some(command),
             Some(UserMessageData(workflowContent, None)), Some(now))
  }

  /** toolCallAllow: echoes the caller's request id and allows the call. */
  function ToolCallAllow(sessionCode: string, requestId: string, toolName: string, toolArgs: string, isClientTool: bool,
                         result: Option<string>, success: Option<bool>, error: Option<string>, now: nat): (m: Envelope)
    ensures m.msgType == Some(TypeName(AgentToolCallResponse)) && m.requestId == Some(requestId)
    ensures m.data.Some? && m.data.value.ToolCallResponseData? && m.data.value.isAllow == Some(true)
    ensures m.data.value.result == result && m.data.value.success == success && m.data.value.error == error
  {
    Envelope(Some("AGENT_TOOL_CALL_RESPONSE"), Some(sessionCode), Some(requestId), None,
             Some(ToolCallResponseData(None, Some(toolName), Some(isClientTool), None, Some(toolArgs), result, Some(true), success, error)),
             Some(now))
  }

  /** toolCallDeny: refuses the call and carries no result, success flag or error. */
  function ToolCallDeny(sessionCode: string, requestId: string, toolName: string, toolArgs: string, isClientTool: bool, now: nat): (m: Envelope)
    ensures m.msgType == Some(TypeName(AgentToolCallResponse)) && m.requestId == Some(requestId)
    ensures m.data.Some? && m.data.value.ToolCallResponseData? && m.data.value.isAllow == Some(false)
    ensures m.data.value.result.None? && m.data.value.success.None? && m.data.value.error.None?
  {
    Envelope(Some("AGENT_TOOL_CALL_RESPONSE"), Some(sessionCode), Some(requestId), None,
             Some(ToolCallResponseData(None, Some(toolName), Some(isClientTool), None, Some(toolArgs), None, Some(false), None, None)),
             Some(now))
  }

  /** interrupt: names the request to stop and carries neither text nor data. */
  function InterruptOf(sessionCode: string, requestId: string, now: nat): (m: Envelope)
    ensures m.msgType == Some(TypeName(Interrupt)) && m.requestId == Some(requestId)
    ensures m.content.None? && m.data.None?
  {
    Envelope(Some("INTERRUPT"), Some(sessionCode), Some(requestId), None, None, Some(now))
  }

  function PingOf(sessionCode: string, idClock: nat, now: nat): (m: Envelope)
    ensures m.msgType == Some(TypeName(Ping)) && m.requestId == Some(MintRequestId(idClock))
    ensures m.timestamp == Some(now) && m.content.None? && m.data.None?
  {
    Envelope(Some("PING"), Some(sessionCode), Some(MintRequestId(idClock)), None, None, Some(now))
  }
  /** Every message the client builds names a client-to-server kind that the server's valueOf reads back. */
  lemma BuiltKindsAreClientKinds(sessionCode: string, requestId: string, text: string, idClock: nat, now: nat)
    ensures var kinds := [UserMessageOf(sessionCode, text, text, None, idClock, now).msgType,
                          UserOrderOf(sessionCode, text, text, idClock, now).msgType,
                          ToolCallAllow(sessionCode, requestId, text, text, true, None, None, None, now).msgType,
                          ToolCallDeny(sessionCode, requestId, text, text, true, now).msgType,
                          InterruptOf(sessionCode, requestId, now).msgType,
                          PingOf(sessionCode, idClock, now).msgType];
      forall k :: 0 <= k < |kinds| ==>
        kinds[k].Some? && ParseType(kinds[k].value).Some? && ClientToServer(ParseType(kinds[k].value).value)
  {
    ParseTypeName(UserMessage);
    ParseTypeName(UserOrder);
    ParseTypeName(AgentToolCallResponse);
    ParseTypeName(Interrupt);
    ParseTypeName(Ping);
  }
}
