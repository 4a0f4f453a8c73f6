/**
 * ChatWebSocketHandler.handleTextMessage and the per-kind handlers it
 * dispatches to. The handler is a state transformer over the connection's
 * context, the tool-call wait registry, the replies sent, the messages handed
 * to the agent, and the tool results delivered to waiting agents. The time
 * stamp of replies, the result of running a server-side tool, and the text the
 * JVM gives a null dereference are parameters.
 */
module ChatHandler {
  import opened Wrappers
  import opened WebSocketProtocol
  import opened SessionContext
  import JavaStrings
  import ToolCallWait

  const ALLOWED_ORDERS: set<string> := {"/help", "/clear", "/compact"}

  const TYPE_MISSING: string := "消息类型不能为空"
  const UNKNOWN_TYPE: string := "未知的消息类型: "
  const SESSION_CODE_MISSING: string := "会话编码不能为空"
  const REQUEST_ID_MISSING: string := "请求ID不能为空"
  const CONTENT_MISSING: string := "消息内容不能为空"
  const ORDER_INVALID: string := "命令格式不合法"
  const RESPONSE_DATA_MISSING: string := "工具调用响应数据不能为空"
  const RESPONSE_DATA_WRONG: string := "工具调用响应数据类型错误"
  const CONTEXT_WRONG: string := "当前Agent执行上下文不正确"
  const RESPONSE_FAILED: string := "处理工具调用响应失败: "
  const TOOL_NOT_FOUND: string := "找不到该工具"
  const MCP_DONE: string := "执行成功"

  /** A frame as received: an envelope, or a payload the JSON reader rejected with the given message. */
  datatype Frame = Parsed(message: Envelope) | Unreadable(readError: Option<string>)

  /** The outcome of looking up and running a server-side tool. */
  datatype ServerTool = NoSuchTool | Returned(output: Option<string>) | Threw(message: Option<string>, stackTrace: string)

  /** A tool result handed to the agent blocked on the wait with this ticket. */
  datatype Delivery = Delivery(ticket: ToolCallWait.Ticket, result: Payload)

  datatype State = State(
    context: Context,
    waits: ToolCallWait.Waits,
    sent: seq<Envelope>,
    started: seq<Envelope>,
    delivered: seq<Delivery>)

  /** The envelope after the checks: its kind, session code and request id. */
  datatype Checked = Checked(kind: MessageType, sessionCode: string, requestId: string)

  /** A failed check: the error text and the request id its reply carries. */
  datatype Rejection = Rejection(error: string, replyRequestId: Option<string>)

  /**
   * The checks in their order. The first two fail before the request id has
   * been read, so their replies carry none, even when the envelope has one.
   */
  function Validate(m: Envelope): (r: Result<Checked, Rejection>)
    ensures r.Success? <==>
      m.msgType.Some? && ParseType(m.msgType.value).Some? && m.sessionCode.Some? && m.requestId.Some?
    ensures r.Success? ==>
              && TypeName(r.value.kind) == m.msgType.value
              && Some(r.value.sessionCode) == m.sessionCode && Some(r.value.requestId) == m.requestId
    ensures r.Failure? && (m.msgType.None? || ParseType(m.msgType.value).None?) ==> r.error.replyRequestId.None?
    ensures r.Failure? && m.msgType.Some? && ParseType(m.msgType.value).Some? ==> r.error.replyRequestId == m.requestId
  {
    if m.msgType.None? then Failure(Rejection(TYPE_MISSING, None))
    else if ParseType(m.msgType.value).None? then Failure(Rejection(UNKNOWN_TYPE + m.msgType.value, None))
    else if m.sessionCode.None? then Failure(Rejection(SESSION_CODE_MISSING, m.requestId))
    else if m.requestId.None? then Failure(Rejection(REQUEST_ID_MISSING, m.requestId))
    else Success(Checked(ParseType(m.msgType.value).value, m.sessionCode.value, m.requestId.value))
  }

  function Send(s: State, m: Envelope): State {
    s.(sent := s.sent + [m])
  }

  function SendError(s: State, error: Option<string>, requestId: Option<string>, now: int): State {
    Send(s, ErrorMessage(s.context, error, requestId, now))
  }

  /** `t.sent` is `s.sent` with at most one reply added at the end. */
  predicate AtMostOneReply(s: State, t: State) {
    |s.sent| <= |t.sent| <= |s.sent| + 1 && t.sent[..|s.sent|] == s.sent
  }

  /** Every wait left in `t` was in `s`, with the same ticket. */
  predicate WaitsOnlyRemoved(s: State, t: State) {
    forall k :: k in t.waits ==> k in s.waits && t.waits[k] == s.waits[k]
  }

  /** handleTextMessage: a read failure or a failed check sends one error; a checked message goes to its kind's handler. */
  function HandleFrame(s: State, frame: Frame, now: int, nullMessage: Option<string>, tool: ServerTool): (t: State)
    ensures AtMostOneReply(s, t) && WaitsOnlyRemoved(s, t)
    ensures frame.Unreadable? ==> |t.sent| == |s.sent| + 1 && t.(sent := s.sent) == s
    ensures t.started != s.started ==>
      && frame.Parsed? && Validate(frame.message).Success?
      && Validate(frame.message).value.kind in {UserMessage, UserOrder}
      && t.started == s.started + [frame.message]
    ensures t.delivered != s.delivered ==>
      frame.Parsed? && Validate(frame.message).Success? && Validate(frame.message).value.kind == AgentToolCallResponse
  {
    match frame
    case Unreadable(e) => SendError(s, e, None, now)
    case Parsed(m) =>
      match Validate(m)
      case Failure(rejection) => SendError(s, Some(rejection.error), rejection.replyRequestId, now)
      case Success(c) =>
        match c.kind
        case UserMessage => HandleUserMessage(s, m, now)
        case UserOrder => HandleUserOrder(s, m, now)
        case AgentToolCallResponse => HandleToolCallResponse(s, m, now, tool)
        case Interrupt => HandleInterrupt(s, c.requestId, now, nullMessage)
        case Ping => Send(s, PongFor(m, now))
        case _ => s
  }

  /** handleUserMessage: any non-null content starts the agent. */
  function HandleUserMessage(s: State, m: Envelope, now: int): (t: State)
    ensures t.context == s.context && t.waits == s.waits && t.delivered == s.delivered
    ensures m.content.Some? <==> t.started == s.started + [m]
    ensures m.content.Some? ==> t.sent == s.sent
    ensures m.content.None? ==>
      t.started == s.started && t.sent == s.sent + [ErrorMessage(s.context, Some(CONTENT_MISSING), m.requestId, now)]
  {
    if m.content.None? then SendError(s, Some(CONTENT_MISSING), m.requestId, now)
    else s.(started := s.started + [m])
  }

  /**
   * handleUserOrder: only the three commands start the agent. The membership test
   * of an immutable set throws on null, with no message, and the outer handler
   * reports that.
   */
  function HandleUserOrder(s: State, m: Envelope, now: int): (t: State)
    ensures t.context == s.context && t.waits == s.waits && t.delivered == s.delivered
    ensures t.started == s.started + [m] <==> m.content.Some? && m.content.value in ALLOWED_ORDERS
    ensures t.started == s.started + [m] ==> t.sent == s.sent
    ensures t.started != s.started + [m] ==> t.started == s.started && |t.sent| == |s.sent| + 1 && t.sent[..|s.sent|] == s.sent
  {
    if m.content.None? then SendError(s, None, m.requestId, now)
    else if m.content.value !in ALLOWED_ORDERS then SendError(s, Some(ORDER_INVALID), m.requestId, now)
    else s.(started := s.started + [m])
  }

  /** The fields a response has after the server fills in what it ran itself. */
  function ResolveResponse(d: Payload, tool: ServerTool): (r: Payload)
    requires d.ToolCallResponseData?
    ensures r.ToolCallResponseData?
    ensures r.toolCallId == d.toolCallId && r.toolName == d.toolName && r.isAllow == d.isAllow
  {
    if d.isMcpTool == Some(false) && d.isClientTool == Some(false) then
      match tool
      case NoSuchTool => d.(success := Some(false), error := Some(TOOL_NOT_FOUND))
      case Returned(output) => d.(success := Some(true), result := output)
      case Threw(message, stackTrace) => d.(success := Some(false), result := Some(stackTrace), error := message)
    else if d.isMcpTool == Some(true) && d.isAllow == Some(true) then
      d.(success := Some(true), result := Some(MCP_DONE))
    else d
  }

  /**
   * handleToolCallResponse: the response must carry tool-call data and belong to
   * the executing request. On an interrupted execution the wait is cancelled
   * first, so the completion that follows finds nothing.
   */
  function HandleToolCallResponse(s: State, m: Envelope, now: int, tool: ServerTool): (t: State)
    ensures t.context == s.context && t.started == s.started
    ensures AtMostOneReply(s, t) && WaitsOnlyRemoved(s, t)
    ensures |t.sent| > |s.sent| ==> t.waits == s.waits && t.delivered == s.delivered
    ensures |s.delivered| <= |t.delivered| <= |s.delivered| + 1 && t.delivered[..|s.delivered|] == s.delivered
    ensures |t.delivered| > |s.delivered| ==>
      && m.data.Some? && m.data.value.ToolCallResponseData?
      && s.context.execution.Some? && s.context.execution.value.requestId == m.requestId
      && !s.context.execution.value.interrupted
      && ToolCallWait.Key(m.data.value.toolCallId, m.data.value.toolName) in s.waits
  {
    if m.data.None? then SendError(s, Some(RESPONSE_DATA_MISSING), m.requestId, now)
    else if !m.data.value.ToolCallResponseData? then SendError(s, Some(RESPONSE_DATA_WRONG), m.requestId, now)
    else if s.context.execution.None? || s.context.execution.value.requestId != m.requestId then
      SendError(s, Some(RESPONSE_FAILED + CONTEXT_WRONG), m.requestId, now)
    else
      var d := m.data.value;
      var waits := if s.context.execution.value.interrupted
        then ToolCallWait.CancelWait(s.waits, d.toolCallId, d.toolName).waits else s.waits;
      var completion := ToolCallWait.CompleteWait(waits, d.toolCallId, d.toolName);
      s.(waits := completion.waits,
         delivered := s.delivered
           + if completion.completed then [Delivery(completion.woken.value, ResolveResponse(d, tool))] else [])
  }

  /**
   * handleInterrupt: the flag is raised only for a non-blank id equal to the
   * executing request's, but the pending model call is cancelled either way.
   * Without an execution the dereference fails and the outer handler reports it.
   */
  function HandleInterrupt(s: State, requestId: string, now: int, nullMessage: Option<string>): (t: State)
    ensures t.waits == s.waits && t.started == s.started && t.delivered == s.delivered
    ensures t.context.(execution := s.context.execution) == s.context
    ensures s.context.execution.None? ==> t.context == s.context && |t.sent| == |s.sent| + 1
    ensures s.context.execution.Some? ==>
      && t.sent == s.sent && t.context.execution.Some?
      && t.context.execution.value.requestId == s.context.execution.value.requestId
      && (s.context.execution.value.interrupted ==> t.context.execution.value.interrupted)
      && !t.context.execution.value.llmCallPending
  {
    if s.context.execution.None? then SendError(s, nullMessage, Some(requestId), now)
    else
      var e := s.context.execution.value;
      var raise := !JavaStrings.Blank(requestId) && e.requestId == Some(requestId);
      s.(context := s.context.(execution := Some(Execution(e.requestId, e.interrupted || raise, false))))
  }

  /** handlePing: a PONG echoing the session code and request id. */
  function PongFor(m: Envelope, now: int): (r: Envelope)
    ensures r.msgType == Some(TypeName(Pong)) && r.sessionCode == m.sessionCode && r.requestId == m.requestId
  {
    Envelope(Some("PONG"), m.sessionCode, m.requestId, None, None, Some(now))
  }

  // ===========================================================================
  // Properties
  // ===========================================================================

  /** Every message the client's builders produce passes the checks as its own kind. */
  lemma BuiltMessagesAccepted(sessionCode: string, requestId: string, text: string, idClock: nat, now: nat)
    ensures Validate(UserMessageOf(sessionCode, text, text, None, idClock, now))
      == Success(Checked(UserMessage, sessionCode, MintRequestId(idClock)))
    ensures Validate(UserOrderOf(sessionCode, text, text, idClock, now))
      == Success(Checked(UserOrder, sessionCode, MintRequestId(idClock)))
    ensures Validate(ToolCallAllow(sessionCode, requestId, text, text, true, None, None, None, now))
      == Success(Checked(AgentToolCallResponse, sessionCode, requestId))
    ensures Validate(ToolCallDeny(sessionCode, requestId, text, text, false, now))
      == Success(Checked(AgentToolCallResponse, sessionCode, requestId))
    ensures Validate(InterruptOf(sessionCode, requestId, now)) == Success(Checked(Interrupt, sessionCode, requestId))
    ensures Validate(PingOf(sessionCode, idClock, now)) == Success(Checked(Ping, sessionCode, MintRequestId(idClock)))
  {
  }

  /** A rejected envelope gets exactly one ERROR prompt and changes nothing else. */
  lemma RejectionSendsOneError(s: State, m: Envelope, now: int, nullMessage: Option<string>, tool: ServerTool)
    requires Validate(m).Failure?
    ensures var t := HandleFrame(s, Parsed(m), now, nullMessage, tool);
      && t.sent == s.sent + [ErrorMessage(s.context, Some(Validate(m).error.error), Validate(m).error.replyRequestId, now)]
      && t.context == s.context && t.waits == s.waits && t.started == s.started && t.delivered == s.delivered
  {
  }

  /** A missing type is reported first, whatever else is missing. */
  lemma MissingTypeReportedFirst(m: Envelope)
    requires m.msgType.None?
    ensures Validate(m) == Failure(Rejection(TYPE_MISSING, None))
  {
  }

  /** A ping is answered by one PONG for the same session and request, and nothing else changes. */
  lemma PingAnswered(s: State, sessionCode: string, idClock: nat, sentAt: nat, now: int, nullMessage: Option<string>, tool: ServerTool)
    ensures var t := HandleFrame(s, Parsed(PingOf(sessionCode, idClock, sentAt)), now, nullMessage, tool);
      && t.sent == s.sent + [Envelope(Some("PONG"), Some(sessionCode), Some(MintRequestId(idClock)), None, None, Some(now))]
      && t.context == s.context && t.waits == s.waits && t.started == s.started
  {
  }

  /** A command starts the agent exactly when it is one of the three allowed ones. */
  lemma OrderStartsIff(s: State, sessionCode: string, command: string, idClock: nat, sentAt: nat, now: int,
                       nullMessage: Option<string>, tool: ServerTool)
    ensures var m := UserOrderOf(sessionCode, command, "", idClock, sentAt);
      var t := HandleFrame(s, Parsed(m), now, nullMessage, tool);
      && (command in ALLOWED_ORDERS ==> t.started == s.started + [m] && t.sent == s.sent)
      && (command !in ALLOWED_ORDERS ==>
            && t.started == s.started
            && t.sent == s.sent + [ErrorMessage(s.context, Some(ORDER_INVALID), Some(MintRequestId(idClock)), now)])
  {
    var m := UserOrderOf(sessionCode, command, "", idClock, sentAt);
    assert Validate(m) == Success(Checked(UserOrder, sessionCode, MintRequestId(idClock)));
  }

  /** Messages of the server's own kinds are accepted and ignored. */
  lemma ServerKindsIgnored(s: State, m: Envelope, now: int, nullMessage: Option<string>, tool: ServerTool)
    requires Validate(m).Success? && !ClientToServer(Validate(m).value.kind)
    ensures HandleFrame(s, Parsed(m), now, nullMessage, tool) == s
  {
  }

  /** An interrupt raises the flag exactly for the executing request, and always cancels the pending model call. */
  lemma InterruptRaisesIff(s: State, sessionCode: string, requestId: string, sentAt: nat, now: int,
                           nullMessage: Option<string>, tool: ServerTool)
    requires s.context.execution.Some?
    ensures var t := HandleFrame(s, Parsed(InterruptOf(sessionCode, requestId, sentAt)), now, nullMessage, tool);
      && t.context.execution.Some?
      && (t.context.execution.value.interrupted <==>
            s.context.execution.value.interrupted
            || (!JavaStrings.Blank(requestId) && s.context.execution.value.requestId == Some(requestId)))
      && !t.context.execution.value.llmCallPending
      && t.sent == s.sent && t.waits == s.waits
  {
    assert Validate(InterruptOf(sessionCode, requestId, sentAt)) == Success(Checked(Interrupt, sessionCode, requestId));
  }

  /** A response for another request is refused with one error, and no wait is touched. */
  lemma ForeignResponseRefused(s: State, m: Envelope, now: int, tool: ServerTool)
    requires m.data.Some? && m.data.value.ToolCallResponseData?
    requires s.context.execution.None? || s.context.execution.value.requestId != m.requestId
    ensures var t := HandleToolCallResponse(s, m, now, tool);
      && t.waits == s.waits && t.delivered == s.delivered
      && t.sent == s.sent + [ErrorMessage(s.context, Some(RESPONSE_FAILED + CONTEXT_WRONG), m.requestId, now)]
  {
  }

  /** A matching response completes its wait once and delivers the resolved result to that waiter. */
  lemma ResponseDelivered(s: State, m: Envelope, now: int, tool: ServerTool)
    requires m.data.Some? && m.data.value.ToolCallResponseData?
    requires s.context.execution.Some? && s.context.execution.value.requestId == m.requestId
    requires !s.context.execution.value.interrupted
    requires ToolCallWait.Key(m.data.value.toolCallId, m.data.value.toolName) in s.waits
    ensures var t := HandleToolCallResponse(s, m, now, tool);
      var key := ToolCallWait.Key(m.data.value.toolCallId, m.data.value.toolName);
      && t.delivered == s.delivered + [Delivery(s.waits[key], ResolveResponse(m.data.value, tool))]
      && t.waits == s.waits - {key}
      && t.sent == s.sent
  {
  }

  /** On an interrupted execution the response's wait is dropped and nothing is delivered. */
  lemma InterruptedResponseDropped(s: State, m: Envelope, now: int, tool: ServerTool)
    requires m.data.Some? && m.data.value.ToolCallResponseData?
    requires s.context.execution.Some? && s.context.execution.value.requestId == m.requestId
    requires s.context.execution.value.interrupted
    ensures var t := HandleToolCallResponse(s, m, now, tool);
      && t.delivered == s.delivered
      && t.waits == s.waits - {ToolCallWait.Key(m.data.value.toolCallId, m.data.value.toolName)}
  {
  }
}
