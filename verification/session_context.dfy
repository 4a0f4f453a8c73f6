/**
 * WebSocketSessionContext: the per-connection execution slot. At most one
 * request runs at a time; the slot is claimed by compare-and-set from empty
 * and released by compare-and-set from the request that holds it.
 */
module SessionContext {
  import opened Wrappers
  import opened WebSocketProtocol

  /** The part of AgentExecutionContext the connection handler reads and writes. */
  datatype Execution = Execution(requestId: Option<string>, interrupted: bool, llmCallPending: bool)

  datatype Context = Context(
    sessionCode: Option<string>,
    currentRequestId: Option<string>,
    execution: Option<Execution>)

  predicate Idle(c: Context) {
    c.currentRequestId.None?
  }

  datatype Claim = Claim(ok: bool, context: Context)

  /** startExecution: claims the slot only when no request holds it. */
  function StartExecution(c: Context, requestId: Option<string>): (r: Claim)
    ensures r.ok <==> Idle(c)
    ensures r.ok ==> r.context == c.(currentRequestId := requestId)
    ensures !r.ok ==> r.context == c
  {
    if c.currentRequestId.None? then Claim(true, c.(currentRequestId := requestId)) else Claim(false, c)
  }

  /** completeExecution: releases the slot, and drops the agent context, only for the request that holds it. */
  function CompleteExecution(c: Context, requestId: Option<string>): (r: Claim)
    ensures r.ok <==> c.currentRequestId == requestId
    ensures r.ok ==> Idle(r.context) && r.context.execution.None? && r.context.sessionCode == c.sessionCode
    ensures !r.ok ==> r.context == c
  {
    if c.currentRequestId == requestId then Claim(true, c.(currentRequestId := None, execution := None))
    else Claim(false, c)
  }

  /** A request that claimed the slot can release it, and the connection is idle again. */
  lemma StartThenComplete(c: Context, requestId: string)
    requires Idle(c)
    ensures var started := StartExecution(c, Some(requestId));
      && started.ok && !Idle(started.context)
      && !StartExecution(started.context, Some(requestId)).ok
      && CompleteExecution(started.context, Some(requestId)).ok
      && Idle(CompleteExecution(started.context, Some(requestId)).context)
  {
  }

  /** While a request runs, another request can neither start nor complete it. */
  lemma OtherRequestExcluded(c: Context, running: string, other: string)
    requires c.currentRequestId == Some(running) && other != running
    ensures StartExecution(c, Some(other)) == Claim(false, c)
    ensures CompleteExecution(c, Some(other)) == Claim(false, c)
  {
  }

  /** sendErrorMessage: an AGENT_PROMPT of kind ERROR, under the connection's session code, for the given request. */
  function ErrorMessage(c: Context, error: Option<string>, requestId: Option<string>, now: int): (m: Envelope)
    ensures m.msgType == Some(TypeName(AgentPrompt))
    ensures m.sessionCode == c.sessionCode && m.requestId == requestId
    ensures m.data == Some(AgentPromptData(Error, error))
    ensures m.content.None?
  {
    Envelope(Some("AGENT_PROMPT"), c.sessionCode, requestId, None, Some(AgentPromptData(Error, error)), Some(now))
  }
}
