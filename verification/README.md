# comfy-pilot-backend core, modelled in Dafny

comfy-pilot-backend is a Spring service that sits behind a ComfyUI assistant.
The assistant's agent talks to the browser over one WebSocket per connection.
It keeps a chat history per session and runs a ReAct loop: call the model,
have the client execute tool calls, and feed the results back. It also manages
workflows, users, roles, uploaded files and model configurations.
Most of the service is I/O glue. This project models the deterministic logic
underneath that glue, as pure functions over immutable values:

- **Protocol and messages**:
  - the WebSocket message kinds, builders and default prompt texts (`WebSocketProtocol`);
  - the handler's envelope validation and per-kind dispatch (`ChatHandler`);
  - the per-connection execution slot (`SessionContext`);
  - the connection registry and its removal callbacks (`SessionManager`);
  - the tool-call wait registry (`ToolCallWait`);
  - the ReAct loop's guards and tool-result texts (`ReactLoop`);
  - the chat-history store with its normaliser (`ChatMemory`).
- **Schema conversion**: the translation between an MCP tool's JSON-schema map and the typed schema tree, in both directions (`McpSchema`), over an insertion-ordered JSON value (`JsonValues`).
- **Keyed stores and state machines**:
  - the workflow lock service and the workflow entity's lock and edit rules (`WorkflowLockService`, `WorkflowEntity`, `WorkflowVersions`);
  - the agent event publisher (`EventPublisher`);
  - the token store (`TokenStore`);
  - role assignment (`PermissionService`);
  - the guard methods of the other entities (`ComfyuiServers`, `EmailLogs`, `Users`, `Roles`, `FileResources`).
- **String and number utilities**:
  - version comparison (`VersionCompare`);
  - upload names (`FileUpload`) and download file names (`Wget`);
  - API-key masking (`ApiKeys`);
  - JSON and XML escaping (`FileInfos`, `SkillsXml`);
  - `.env` parsing (`EnvFiles`), query parameters (`HandshakeAuth`) and client IPs (`ClientIp`);
  - shell and SSH command composition (`ShellCommands`, `SshCommands`);
  - the logical-delete insert check (`LogicalDeleteInsert`);
  - configuration fallbacks (`ChatModelConfig`, `WorkflowAgentSetup`, `AiModels`, `ModelCallingTypes`);
  - agent-config validation (`AgentConfigs`);
  - status and todo formatting (`StatusUpdates`, `TodoLists`);
  - paging (`Paging`);
  - the Python runtime probe's pure parts (`PythonRuntime`).
- **Java semantics**: the `java.lang.String` and `Integer` behaviour these rely on is modelled once, in `JavaStrings`. Java's 32-bit `int` arithmetic is written out wherever overflow can occur.

Clocks, UUIDs, operating-system probes, digests and the answers of external
services are parameters. Operations that can fail return `Result` or `Option`
values from `Wrappers`; the failure carries the exception or error text the
source produces.

Where a source method has an evident bug, the model keeps the code as written,
shows the failing input in a lemma, and uses a corrected definition everywhere
else (see "## Findings").

Where the code's behaviour differs from a plain reading of its documentation, the model follows the code:
- `WorkflowVersions.IsSameContent` checks the content hashes first. Two versions whose hashes are both present but differ are never the same, even before their contents are compared.
- `WorkflowAgent` calls the ReAct executor with an iteration limit of 100. The executor takes no limit parameter and stops after its own `MAX_ITERATIONS` = 10 rounds, so the model uses 10.

## Model

| member | source | states |
|---|---|---|
| AgentConfigs.IntValue | src/main/java/org/joker/comfypilot/agent/application/service/impl/AgentConfigServiceImpl.java:225-226 | Number.intValue keeps a 32-bit value and otherwise wraps to one |
| AgentConfigs.CheckString | src/main/java/org/joker/comfypilot/agent/application/service/impl/AgentConfigServiceImpl.java:186-189 | a STRING item whose value is not a string fails with "必须是字符串类型" |
| AgentConfigs.CheckInt | src/main/java/org/joker/comfypilot/agent/application/service/impl/AgentConfigServiceImpl.java:219-242 | an INT item passes exactly when its value is a number whose int value lies within the bounds that are set |
| AgentConfigs.CheckValue | src/main/java/org/joker/comfypilot/agent/application/service/impl/AgentConfigServiceImpl.java:156-181 | a missing type throws; TEXT and MODEL accept exactly strings, BOOLEAN exactly booleans, FLOAT exactly numbers; INT and STRING go to their own checks |
| AgentConfigs.Lookup | src/main/java/org/joker/comfypilot/agent/application/service/impl/AgentConfigServiceImpl.java:130 | a null item name finds no value |
| AgentConfigs.CheckDefinition | src/main/java/org/joker/comfypilot/agent/application/service/impl/AgentConfigServiceImpl.java:133-143 | a required item without a value fails with "是必填项，不能为空"; an optional item without one passes |
| AgentConfigs.ValidateAndParse | src/main/java/org/joker/comfypilot/agent/application/service/impl/AgentConfigServiceImpl.java:107-147 | blank JSON gives an empty map; unparsable JSON fails with "Agent配置JSON格式错误: " and the cause; with no definitions the parsed map is returned; a success always returns the parsed map unchanged |
| AgentConfigs.CheckDefinitionSatisfied | src/main/java/org/joker/comfypilot/agent/application/service/impl/AgentConfigServiceImpl.java:128-143 | one item passes exactly when it satisfies its definition: required means present, and a present value has the type and, for STRING and INT, the format or range its definition asks for |
| AgentConfigs.CheckAllSatisfied | src/main/java/org/joker/comfypilot/agent/application/service/impl/AgentConfigServiceImpl.java:128-144 | the loop passes exactly when every definition is satisfied, and otherwise reports the failure of the first unsatisfied one |
| AgentConfigs.ValidateIffSatisfied | src/main/java/org/joker/comfypilot/agent/application/service/impl/AgentConfigServiceImpl.java:107-147 | a non-blank, parsable configuration is accepted exactly when every definition is satisfied |
| AgentConfigs.MismatchReportedAsFormatError | src/main/java/org/joker/comfypilot/agent/application/service/impl/AgentConfigServiceImpl.java:195-203 | a value that does not match its format is reported as a format-definition error wrapping the mismatch message, because the catch block also catches the ValidationException thrown inside the try |
| AgentConfigs.TruncatedBeforeBounds | src/main/java/org/joker/comfypilot/agent/application/service/impl/AgentConfigServiceImpl.java:225-241 | a long value is truncated to 32 bits before the range check, so 2^32+5 passes the range 0..10 |
| ApiKeys.Mask | src/main/java/org/joker/comfypilot/model/application/util/ApiKeyUtil.java:61-68 | a null key or one of at most 8 chars masks to four stars; a longer key keeps exactly its first 4 and last 4 chars around four stars |
| ApiKeys.MaskIgnoresMiddle | src/main/java/org/joker/comfypilot/model/application/util/ApiKeyUtil.java:61-68 | two keys longer than 8 chars that share their first and last four chars mask identically: the middle is never revealed |
| ApiKeys.MaskLosesMiddle | src/main/java/org/joker/comfypilot/model/application/util/ApiKeyUtil.java:65-67 | for any 4-char prefix and suffix, the mask of prefix+m+suffix is prefix+"****"+suffix whatever the non-empty middle m |
| ChatHandler.Validate | src/main/java/org/joker/comfypilot/session/infrastructure/websocket/ChatWebSocketHandler.java:117-143 | a message passes exactly when its type names a known kind and it has a session code and a request id; a missing or unknown type is reported without a request id, a later failure with the message's request id |
| ChatHandler.ResolveResponse | src/main/java/org/joker/comfypilot/session/infrastructure/websocket/ChatWebSocketHandler.java:270-302 | filling in a server tool's outcome keeps the call id, the tool name and the allowance the client sent |
| ChatHandler.BuiltMessagesAccepted | src/main/java/org/joker/comfypilot/session/infrastructure/websocket/ChatWebSocketHandler.java:117-143 | every message the client's builders produce passes the server's checks with its own kind, session code and request id |
| ChatHandler.RejectionSendsOneError | src/main/java/org/joker/comfypilot/session/infrastructure/websocket/ChatWebSocketHandler.java:117-143 | a message that fails the checks sends exactly one error and changes nothing else |
| ChatHandler.MissingTypeReportedFirst | src/main/java/org/joker/comfypilot/session/infrastructure/websocket/ChatWebSocketHandler.java:118-121 | a message without a type is reported as "消息类型不能为空" with no request id, whatever else is missing |
| ChatHandler.PingAnswered | src/main/java/org/joker/comfypilot/session/infrastructure/websocket/ChatWebSocketHandler.java:352-362 | a ping is answered by one PONG that echoes its session code and request id and carries the server's time |
| ChatHandler.PongFor | src/main/java/org/joker/comfypilot/session/infrastructure/websocket/ChatWebSocketHandler.java:352-361 | the answer to a ping is a PONG that echoes its session code and request id |
| ChatHandler.OrderStartsIff | src/main/java/org/joker/comfypilot/session/infrastructure/websocket/ChatWebSocketHandler.java:229-236 | a user command starts the agent exactly when it is /help, /clear or /compact, and otherwise sends "命令格式不合法" |
| ChatHandler.ServerKindsIgnored | src/main/java/org/joker/comfypilot/session/infrastructure/websocket/ChatWebSocketHandler.java:146-152 | a server-to-client kind arriving from a client is ignored and changes nothing |
| ChatHandler.InterruptRaisesIff | src/main/java/org/joker/comfypilot/session/infrastructure/websocket/ChatWebSocketHandler.java:334-346 | an interrupt raises the flag exactly when its id is non-blank and equals the executing request's (or the flag was already up), and always cancels the pending model call |
| ChatHandler.ForeignResponseRefused | src/main/java/org/joker/comfypilot/session/infrastructure/websocket/ChatWebSocketHandler.java:258-328 | a tool response for a request other than the executing one is refused with "处理工具调用响应失败: 当前Agent执行上下文不正确" and wakes nobody |
| ChatHandler.ResponseDelivered | src/main/java/org/joker/comfypilot/session/infrastructure/websocket/ChatWebSocketHandler.java:312-318 | a response to a pending wait of the executing, uninterrupted request wakes that waiter with the resolved data and removes the wait |
| ChatHandler.InterruptedResponseDropped | src/main/java/org/joker/comfypilot/session/infrastructure/websocket/ChatWebSocketHandler.java:265-318 | after an interrupt the wait is cancelled first, so the response wakes nobody |
| ChatHandler.HandleFrame | src/main/java/org/joker/comfypilot/session/infrastructure/websocket/ChatWebSocketHandler.java:92-163 | one text frame sends at most one reply and never adds a wait; an unreadable frame sends exactly one error and changes nothing else; the agent starts only for a valid user message or command, with that message, and a waiter is woken only by a valid tool-call response |
| ChatHandler.HandleUserMessage | src/main/java/org/joker/comfypilot/session/infrastructure/websocket/ChatWebSocketHandler.java:214-227 | a user message starts the agent with that message exactly when it has content, sending nothing; without content it sends the one error "消息内容不能为空" and starts nothing |
| ChatHandler.HandleUserOrder | src/main/java/org/joker/comfypilot/session/infrastructure/websocket/ChatWebSocketHandler.java:229-239 | a command starts the agent exactly when its content is an allowed prompt, sending nothing; otherwise it sends one reply and starts nothing |
| ChatHandler.HandleToolCallResponse | src/main/java/org/joker/comfypilot/session/infrastructure/websocket/ChatWebSocketHandler.java:243-332 | a tool response sends at most one reply, only ever removes waits, and wakes at most one waiter; a waiter is woken only for a pending wait of the executing, matching, uninterrupted request, and a reply wakes nobody |
| ChatHandler.HandleInterrupt | src/main/java/org/joker/comfypilot/session/infrastructure/websocket/ChatWebSocketHandler.java:334-348 | an interrupt with no execution sends one error and changes nothing; with one, it sends nothing, keeps the execution and its request id, never lowers the interrupt flag and cancels the pending model call |
| ChatMemory.AddMessage | src/main/java/org/joker/comfypilot/agent/infrastructure/memory/ChatMemoryChatMemoryStore.java:29-48 | adding reports a closed session exactly when it has no history and then changes nothing; a non-system message is appended; a system message only replaces a leading system message and is dropped otherwise; other sessions are untouched |
| ChatMemory.AddMessageKeepsSystemAtHead | src/main/java/org/joker/comfypilot/agent/infrastructure/memory/ChatMemoryChatMemoryStore.java:29-48 | adding never puts a system message anywhere but the head of a history |
| ChatMemory.DeleteMessages | src/main/java/org/joker/comfypilot/agent/infrastructure/memory/ChatMemoryChatMemoryStore.java:65-67 | deleting reports whether the session had a history and removes exactly that entry |
| ChatMemory.DeleteTwice | src/main/java/org/joker/comfypilot/agent/infrastructure/memory/ChatMemoryChatMemoryStore.java:65-67 | a second delete of the same session finds nothing |
| ChatMemory.UpdateMessages | src/main/java/org/joker/comfypilot/agent/infrastructure/memory/ChatMemoryChatMemoryStore.java:50-63 | with the corrected pass, the stored history is the normalised list, always well-formed, and other sessions are untouched |
| ChatMemory.NonTextsOf | src/main/java/org/joker/comfypilot/agent/infrastructure/memory/ChatMemoryChatMemoryStore.java:228 | removing the text contents keeps only non-text contents of the message |
| ChatMemory.NoTexts | src/main/java/org/joker/comfypilot/agent/infrastructure/memory/ChatMemoryChatMemoryStore.java:216-228 | a message without text contents has nothing to fold and keeps all its contents |
| ChatMemory.LastTextIndex | src/main/java/org/joker/comfypilot/agent/infrastructure/memory/ChatMemoryChatMemoryStore.java:215-225 | the remembered index is that of the last text content, or -1 when there is none |
| ChatMemory.FoldLinesJoin | src/main/java/org/joker/comfypilot/agent/infrastructure/memory/ChatMemoryChatMemoryStore.java:219-222 | appending texts with a newline before every one but the first is joining them with newlines |
| ChatMemory.JoinOfNonEmptyTexts | src/main/java/org/joker/comfypilot/agent/infrastructure/memory/ChatMemoryChatMemoryStore.java:216-225 | the folded text of non-empty texts is their newline join |
| ChatMemory.AdjustUser | src/main/java/org/joker/comfypilot/agent/infrastructure/memory/ChatMemoryChatMemoryStore.java:210-233 | a user message without contents becomes one empty text; otherwise all its texts are joined into one text placed first, the other contents keeping their order |
| ChatMemory.AdjustUserKeepsNormal | src/main/java/org/joker/comfypilot/agent/infrastructure/memory/ChatMemoryChatMemoryStore.java:226-232 | a user message whose only text is its first content is returned unchanged |
| ChatMemory.AdjustUserIdempotent | src/main/java/org/joker/comfypilot/agent/infrastructure/memory/ChatMemoryChatMemoryStore.java:210-233 | adjusting a user message twice is adjusting it once |
| ChatMemory.WeightConcat | src/main/java/org/joker/comfypilot/agent/infrastructure/memory/ChatMemoryChatMemoryStore.java:72-208 | the termination measure of a list is the sum over its parts |
| ChatMemory.WeightSplit | src/main/java/org/joker/comfypilot/agent/infrastructure/memory/ChatMemoryChatMemoryStore.java:72-208 | dropping a non-empty prefix strictly lowers the measure |
| ChatMemory.WeightOfResults | src/main/java/org/joker/comfypilot/agent/infrastructure/memory/ChatMemoryChatMemoryStore.java:152-180 | a run of tool results weighs one per result |
| ChatMemory.WithoutSystems | src/main/java/org/joker/comfypilot/agent/infrastructure/memory/ChatMemoryChatMemoryStore.java:79-89 | removing the later system messages leaves none and removes only messages |
| ChatMemory.LastSystemIndex | src/main/java/org/joker/comfypilot/agent/infrastructure/memory/ChatMemoryChatMemoryStore.java:79-85 | the kept system message is the last one in the list |
| ChatMemory.LastAiIndex | src/main/java/org/joker/comfypilot/agent/infrastructure/memory/ChatMemoryChatMemoryStore.java:140-196 | the index found is that of the last AI message, or -1 |
| ChatMemory.LeadingUsers | src/main/java/org/joker/comfypilot/agent/infrastructure/memory/ChatMemoryChatMemoryStore.java:101-112 | the count is the length of the run of user messages at the front |
| ChatMemory.LeadingResults | src/main/java/org/joker/comfypilot/agent/infrastructure/memory/ChatMemoryChatMemoryStore.java:153-160 | the count is the length of the run of tool results at the front |
| ChatMemory.DropNonUsers | src/main/java/org/joker/comfypilot/agent/infrastructure/memory/ChatMemoryChatMemoryStore.java:184-195 | the messages removed after a group are exactly the non-user ones before the next user message |
| ChatMemory.Last | src/main/java/org/joker/comfypilot/agent/infrastructure/memory/ChatMemoryChatMemoryStore.java:142 | the message before position i is the last one processed |
| ChatMemory.SystemStep | src/main/java/org/joker/comfypilot/agent/infrastructure/memory/ChatMemoryChatMemoryStore.java:76-90 | the surviving system message is the last system message of the rest, and every later system message is removed |
| ChatMemory.AdjustUsers | src/main/java/org/joker/comfypilot/agent/infrastructure/memory/ChatMemoryChatMemoryStore.java:101-108 | each user message of a run is adjusted on its own |
| ChatMemory.FirstTexts | src/main/java/org/joker/comfypilot/agent/infrastructure/memory/ChatMemoryChatMemoryStore.java:115-122 | the merge reads each user message's first text |
| ChatMemory.MergeUsers | src/main/java/org/joker/comfypilot/agent/infrastructure/memory/ChatMemoryChatMemoryStore.java:114-132 | consecutive user messages merge into one whose text joins their first texts with newlines and whose other contents are the last message's |
| ChatMemory.UserRunLength | src/main/java/org/joker/comfypilot/agent/infrastructure/memory/ChatMemoryChatMemoryStore.java:101-112 | a run of user messages extends exactly to the first non-user message |
| ChatMemory.UserStep | src/main/java/org/joker/comfypilot/agent/infrastructure/memory/ChatMemoryChatMemoryStore.java:91-139 | a run of user messages becomes one merged message, followed by the next AI message or by an inserted "执行被中断..." AI message |
| ChatMemory.LastResultWithId | src/main/java/org/joker/comfypilot/agent/infrastructure/memory/ChatMemoryChatMemoryStore.java:153-160 | the index found holds a result with the id, and none is found only when no result has it |
| ChatMemory.FirstResultWithId | src/main/java/org/joker/comfypilot/agent/infrastructure/memory/ChatMemoryChatMemoryStore.java:164-168 | the index found holds a result with the id, and none is found only when no result has it |
| ChatMemory.KeptResult | src/main/java/org/joker/comfypilot/agent/infrastructure/memory/ChatMemoryChatMemoryStore.java:164-168 | the result kept for an id is one with that id, and none exactly when no result has it |
| ChatMemory.ResultForRequest | src/main/java/org/joker/comfypilot/agent/infrastructure/memory/ChatMemoryChatMemoryStore.java:170-177 | each request gets a result with its id: a stored one, or "执行结果丢失..." only when no stored result has that id |
| ChatMemory.ResultsInRequestOrder | src/main/java/org/joker/comfypilot/agent/infrastructure/memory/ChatMemoryChatMemoryStore.java:170-177 | the repaired results follow the order of the requests, one per request |
| ChatMemory.RepairResults | src/main/java/org/joker/comfypilot/agent/infrastructure/memory/ChatMemoryChatMemoryStore.java:162-180 | a mismatched result run is replaced by one result per request in request order, matched by id or marked lost; a matching run is left alone |
| ChatMemory.KeepResultsThenUser | src/main/java/org/joker/comfypilot/agent/infrastructure/memory/ChatMemoryChatMemoryStore.java:182-195 | after the results of an AI message only a user message may follow: everything else before it is removed |
| ChatMemory.AiStep | src/main/java/org/joker/comfypilot/agent/infrastructure/memory/ChatMemoryChatMemoryStore.java:140-196 | an AI message not preceded by a user message gets "用户历史记录丢失..." inserted before it, and is followed by exactly its results and then a user message or the end |
| ChatMemory.NextStep | src/main/java/org/joker/comfypilot/agent/infrastructure/memory/ChatMemoryChatMemoryStore.java:73-208 | each step consumes input, so the normalisation terminates |
| ChatMemory.AdjustMessages | src/main/java/org/joker/comfypilot/agent/infrastructure/memory/ChatMemoryChatMemoryStore.java:72-208 | the corrected normalisation always yields a well-formed conversation: an optional system message, then exchanges of user, AI and one result per tool request |
| ChatMemory.ExchangesAppend | src/main/java/org/joker/comfypilot/agent/infrastructure/memory/ChatMemoryChatMemoryStore.java:72-208 | appending a complete exchange to a sequence of exchanges keeps it one |
| ChatMemory.WellFormedAppend | src/main/java/org/joker/comfypilot/agent/infrastructure/memory/ChatMemoryChatMemoryStore.java:72-208 | appending a complete exchange keeps a conversation well-formed |
| ChatMemory.ClosedExchange | src/main/java/org/joker/comfypilot/agent/infrastructure/memory/ChatMemoryChatMemoryStore.java:150-181 | an open exchange that owes no result is well-formed |
| ChatMemory.InvariantAtEnd | src/main/java/org/joker/comfypilot/agent/infrastructure/memory/ChatMemoryChatMemoryStore.java:73 | when the input is used up the processed list is well-formed |
| ChatMemory.StepInvariant | src/main/java/org/joker/comfypilot/agent/infrastructure/memory/ChatMemoryChatMemoryStore.java:73-208 | every step of the pass keeps its invariant |
| ChatMemory.AdjustFromWellFormed | src/main/java/org/joker/comfypilot/agent/infrastructure/memory/ChatMemoryChatMemoryStore.java:72-208 | the pass, started in an invariant state, ends in a well-formed conversation |
| ChatMemory.NormalHistoryUnchanged | src/main/java/org/joker/comfypilot/agent/infrastructure/memory/ChatMemoryChatMemoryStore.java:72-208 | a history that needs no normalising comes back unchanged. It has an optional system message, then exchanges of a normal user message, its AI message and that message's results with distinct ids. Nothing is merged, inserted, reordered or dropped, so the well-formedness guarantee is not met by throwing content away |
| ChatMemory.RemoveAscending | src/main/java/org/joker/comfypilot/agent/infrastructure/memory/ChatMemoryChatMemoryStore.java:163-169 | removing by ascending index removes the requested number of results or fails when an index runs past the end |
| ChatMemory.RepairResultsAsWritten | src/main/java/org/joker/comfypilot/agent/infrastructure/memory/ChatMemoryChatMemoryStore.java:150-180 | the repair as written leaves a matching run alone and, when it succeeds, yields a result per request |
| ChatMemory.AiStepAsWritten | src/main/java/org/joker/comfypilot/agent/infrastructure/memory/ChatMemoryChatMemoryStore.java:140-196 | whenever the AI branch as written does not throw, its emitted prefix equals the corrected step's |
| ChatMemory.AdjustFromAsWritten | src/main/java/org/joker/comfypilot/agent/infrastructure/memory/ChatMemoryChatMemoryStore.java:74-207 | the pass as written only appends to what it has emitted, and with nothing left returns it unchanged |
| ChatMemory.AdjustMessagesAsWritten | src/main/java/org/joker/comfypilot/agent/infrastructure/memory/ChatMemoryChatMemoryStore.java:72-208 | adjusting an empty list as written gives the empty list |
| ChatMemory.UpdateMessagesAsWritten | src/main/java/org/joker/comfypilot/agent/infrastructure/memory/ChatMemoryChatMemoryStore.java:50-63 | as written, the update fails exactly when the pass as written throws, leaving the store as it was; otherwise it stores what that pass returns and leaves other sessions untouched |
| ChatMemory.UpdateAsWrittenDiffers | src/main/java/org/joker/comfypilot/agent/infrastructure/memory/ChatMemoryChatMemoryStore.java:50-63 | as written, a history missing a tool result makes the update throw where the corrected update stores a well-formed list, and two orphan results leave a stored list that is not well formed where the corrected update stores the empty list |
| ChatMemory.RemoveWithoutRewind | src/main/java/org/joker/comfypilot/agent/infrastructure/memory/ChatMemoryChatMemoryStore.java:197-206 | removing at i without stepping back skips the message that moves into i |
| ChatMemory.RemoveAscendingTwoResultsThrows | src/main/java/org/joker/comfypilot/agent/infrastructure/memory/ChatMemoryChatMemoryStore.java:163-166 | with two results to remove in ascending order, the second removal reads past the run and throws |
| ChatMemory.MissingResultThrows | src/main/java/org/joker/comfypilot/agent/infrastructure/memory/ChatMemoryChatMemoryStore.java:150-180 | an AI message with three requests and two distinct results makes the normalisation as written throw |
| ChatMemory.MissingResultRepaired | src/main/java/org/joker/comfypilot/agent/infrastructure/memory/ChatMemoryChatMemoryStore.java:150-180 | the corrected normalisation appends an "执行结果丢失..." result for the missing request |
| ChatMemory.AdjustFromResults | src/main/java/org/joker/comfypilot/agent/infrastructure/memory/ChatMemoryChatMemoryStore.java:197-202 | results following an AI group are kept as they are |
| ChatMemory.OrphanResultSurvives | src/main/java/org/joker/comfypilot/agent/infrastructure/memory/ChatMemoryChatMemoryStore.java:197-202 | as written, of two leading orphan results the second survives and the list is not well-formed; corrected, both are removed |
| ChatMemory.UnknownHidesAi | src/main/java/org/joker/comfypilot/agent/infrastructure/memory/ChatMemoryChatMemoryStore.java:204-206 | as written, an unknown message before an AI message hides it from the repair; corrected, the AI message gets its placeholder user message |
| ChatMemory.LoneAiIllFormed | src/main/java/org/joker/comfypilot/agent/infrastructure/memory/ChatMemoryChatMemoryStore.java:141-145 | an AI message with no user message before it is not a well-formed conversation |
| ChatMemory.UnknownDroppedBeforeAi | src/main/java/org/joker/comfypilot/agent/infrastructure/memory/ChatMemoryChatMemoryStore.java:141-206 | corrected, an unknown message is dropped and the following AI message is preceded by "用户历史记录丢失..." |
| ChatModelConfig.ConvertToInteger | src/main/java/org/joker/comfypilot/model/infrastructure/service/AbstractChatModelFactory.java:163-184 | null and blank text give null; a number is narrowed to 32 bits; non-blank text converts exactly when Integer.parseInt accepts it; any other value fails with the type message naming its class; a result is always a 32-bit int |
| ChatModelConfig.ConvertToIntegerRoundTrip | src/main/java/org/joker/comfypilot/model/infrastructure/service/AbstractChatModelFactory.java:163-184 | an int written in decimal, or given as a number, converts back to itself |
| ChatModelConfig.IntToStringNotBlank | src/main/java/org/joker/comfypilot/model/infrastructure/service/AbstractChatModelFactory.java:171 | a decimal rendering is never blank, so it is never read as null |
| ChatModelConfig.IntegerOr | src/main/java/org/joker/comfypilot/model/infrastructure/service/AbstractChatModelFactory.java:107-111 | the lookup with a default fails exactly when the conversion fails, gives the default for null and the converted value otherwise |
| ChatModelConfig.CheckDouble | src/main/java/org/joker/comfypilot/model/infrastructure/service/AbstractChatModelFactory.java:131-152 | a double field fails exactly when it is present and neither a number, nor blank text, nor text Double.parseDouble accepts |
| ChatModelConfig.StringValue | src/main/java/org/joker/comfypilot/model/infrastructure/service/AbstractChatModelFactory.java:88-94 | a missing field reads as null, and a string field reads as its text |
| ChatModelConfig.FallbackPicksFirstWithText | src/main/java/org/joker/comfypilot/model/infrastructure/service/AbstractChatModelFactory.java:62-75 | the URL or key is the configured one if it has text, else the model's, else the provider's; the result has text exactly when one of the three does |
| ChatModelConfig.ParseModelConfig | src/main/java/org/joker/comfypilot/model/infrastructure/service/AbstractChatModelFactory.java:46-83 | without a model config the timeout is 60 s and maxTokens null; every failure carries the "模型配置格式错误: " prefix; the base URL and key follow the fallback chain |
| ChatModelConfig.ReadFields | src/main/java/org/joker/comfypilot/model/infrastructure/service/AbstractChatModelFactory.java:56-61 | reading succeeds exactly when temperature, maxTokens, topP and timeout all convert, and yields the converted maxTokens and timeout |
| ChatModelConfig.TimeoutDefaults | src/main/java/org/joker/comfypilot/model/infrastructure/service/AbstractChatModelFactory.java:53-61 | a model config without a timeout entry gets the 60-second default |
| ShellCommands.ResolveShell | src/main/java/org/joker/comfypilot/common/util/CommandUtil.java:215-228 | AUTO resolves to bash off Windows and, on Windows, to PowerShell exactly when it is available and to cmd otherwise; an explicit shell is kept |
| ShellCommands.BuildCommandList | src/main/java/org/joker/comfypilot/common/util/CommandUtil.java:213-262 | a null shell type fails (the switch throws); otherwise the list is the resolved shell's launcher, its flag, then the command as one argument |
| ShellCommands.LaunchersDistinct | src/main/java/org/joker/comfypilot/common/util/CommandUtil.java:231-255 | the four shells use four different launcher programs |
| ShellCommands.CommandIsLastArgument | src/main/java/org/joker/comfypilot/common/util/CommandUtil.java:213-262 | for any shell type the command is passed whole as the last argument |
| ShellCommands.NewBuilder | src/main/java/org/joker/comfypilot/common/util/CommandUtil.java:360-368 | a fresh builder has the 60-second timeout, UTF-8, no error-stream redirect, shell AUTO and no environment |
| ShellCommands.AddEnvironment | src/main/java/org/joker/comfypilot/common/util/CommandUtil.java:395-401 | addEnvironment creates the map when missing, sets the key and keeps every other entry and setting |
| ShellCommands.LaterAdditionWins | src/main/java/org/joker/comfypilot/common/util/CommandUtil.java:395-401 | adding the same key twice keeps the later value, as if only it had been added |
| ShellCommands.Build | src/main/java/org/joker/comfypilot/common/util/CommandUtil.java:418-423 | build fails with "命令不能为空" exactly for a null or empty command, and otherwise copies the settings |
| ShellCommands.DefaultsBuild | src/main/java/org/joker/comfypilot/common/util/CommandUtil.java:360-423 | a builder given only a command builds with timeout 60, UTF-8, no redirect and shell AUTO |
| SshCommands.ScriptPart | src/main/java/org/joker/comfypilot/common/util/SshCommandUtil.java:402-404 | a null or empty init script contributes nothing |
| SshCommands.DirPart | src/main/java/org/joker/comfypilot/common/util/SshCommandUtil.java:407-411 | a null or empty working directory contributes nothing |
| SshCommands.BuildFinalCommand | src/main/java/org/joker/comfypilot/common/util/SshCommandUtil.java:398-416 | the final command always ends with the user's command, and is exactly that command when there is no script and no directory |
| SshCommands.FinalCommandEndsWithCommand | src/main/java/org/joker/comfypilot/common/util/SshCommandUtil.java:398-416 | anything put before the command ends with a newline, so the command starts its own line |
| SshCommands.DirectoryComesAfterScript | src/main/java/org/joker/comfypilot/common/util/SshCommandUtil.java:398-416 | with both present, the trimmed script comes first, then "cd" and the directory, then the command, each on its own line |
| SshCommands.NewSshBuilder | src/main/java/org/joker/comfypilot/common/util/SshCommandUtil.java:465-470 | a fresh SSH builder has port 22 and no host or user |
| SshCommands.BuildSsh | src/main/java/org/joker/comfypilot/common/util/SshCommandUtil.java:496-512 | SSH config building checks host, then user name, then that a password or private key is present, each with its own message, and otherwise keeps host, port and user |
| SshCommands.DefaultPort | src/main/java/org/joker/comfypilot/common/util/SshCommandUtil.java:465-512 | a configuration with host, user and password and no port uses port 22 |
| SshCommands.BuildCommandConfig | src/main/java/org/joker/comfypilot/common/util/SshCommandUtil.java:617-625 | the command config needs an SSH config first and then a non-empty command, and otherwise keeps both |
| SshCommands.BuiltConfigRunsCommand | src/main/java/org/joker/comfypilot/common/util/SshCommandUtil.java:398-416 | any command config that builds yields a final command ending with the user's command |
| ComfyuiServers.UpdateBasicInfo | src/main/java/org/joker/comfypilot/cfsvr/domain/entity/ComfyuiServer.java:102-109 | a null or blank name leaves the name as it was, a null description leaves the description, and no other field changes |
| ComfyuiServers.UpdateConnectionConfig | src/main/java/org/joker/comfypilot/cfsvr/domain/entity/ComfyuiServer.java:120-133 | a non-blank base URL, a positive timeout and a non-negative retry count are taken and anything else is ignored; auth mode and API key are always overwritten, even with null; no other field changes |
| ComfyuiServers.UpdateConnectionIdempotent | src/main/java/org/joker/comfypilot/cfsvr/domain/entity/ComfyuiServer.java:120-133 | applying the same connection update twice gives the same server as applying it once |
| ComfyuiServers.PositiveTimeoutStays | src/main/java/org/joker/comfypilot/cfsvr/domain/entity/ComfyuiServer.java:127-129 | a server with a positive timeout keeps a positive timeout through any connection update |
| ComfyuiServers.UpdateHealthStatus | src/main/java/org/joker/comfypilot/cfsvr/domain/entity/ComfyuiServer.java:149-152 | updateHealthStatus records the status (even null) and the check time and changes nothing else |
| ComfyuiServers.HealthyIffLastStatusHealthy | src/main/java/org/joker/comfypilot/cfsvr/domain/entity/ComfyuiServer.java:149-161 | after an update, isHealthy holds exactly when the recorded status is HEALTHY |
| ComfyuiServers.IsHealthy | src/main/java/org/joker/comfypilot/cfsvr/domain/entity/ComfyuiServer.java:159-161 | a null status is not healthy, and only HEALTHY is |
| EmailLogs.MarkAsSent | src/main/java/org/joker/comfypilot/notification/domain/entity/EmailLog.java:96-99 | markAsSent sets the status to SUCCESS and the send time, and nothing else |
| EmailLogs.MarkAsFailed | src/main/java/org/joker/comfypilot/notification/domain/entity/EmailLog.java:104-107 | markAsFailed sets the status to FAILED and the error message, and nothing else |
| EmailLogs.IncrementRetryCount | src/main/java/org/joker/comfypilot/notification/domain/entity/EmailLog.java:112-117 | a null count becomes 1 and a count below Integer.MAX_VALUE grows by one, the count staying a 32-bit int; nothing else changes |
| EmailLogs.Increments | src/main/java/org/joker/comfypilot/notification/domain/entity/EmailLog.java:112-117 | repeated increments keep the count a 32-bit int and set it once there was at least one |
| EmailLogs.RetryBudget | src/main/java/org/joker/comfypilot/notification/domain/entity/EmailLog.java:112-124 | starting from a null count, n increments give the count n, and canRetry holds exactly for 1 <= n < 3 |
| EmailLogs.CanRetry | src/main/java/org/joker/comfypilot/notification/domain/entity/EmailLog.java:122-124 | a null count cannot be retried; a recorded count can be retried when it is between 0 and 2, and not when it is 3 or more |
| Users.UpdateUsername | src/main/java/org/joker/comfypilot/user/domain/entity/User.java:93-101 | a null or blank name throws "用户名不能为空", a name longer than 50 chars throws the length message, and otherwise the trimmed name is stored and nothing else changes |
| Users.StoredNameIsStable | src/main/java/org/joker/comfypilot/user/domain/entity/User.java:93-101 | a stored name is accepted again and stored unchanged |
| Users.UpdatePassword | src/main/java/org/joker/comfypilot/user/domain/entity/User.java:117-122 | a null or blank hash throws "密码哈希值不能为空" and is the only failure; otherwise the hash is stored untrimmed |
| Users.Lock | src/main/java/org/joker/comfypilot/user/domain/entity/User.java:147-149 | lock sets the status to LOCKED, after which canLogin is false; nothing else changes |
| Users.Activate | src/main/java/org/joker/comfypilot/user/domain/entity/User.java:154-156 | activate makes canLogin hold and changes nothing else |
| Users.LockActivateInverse | src/main/java/org/joker/comfypilot/user/domain/entity/User.java:140-156 | lock and activate each overwrite the other, and activating a locked user who could log in restores that user |
| Users.CanLogin | src/main/java/org/joker/comfypilot/user/domain/entity/User.java:140-142 | a null or LOCKED status cannot log in, and only ACTIVE can |
| Roles.UpdateRoleName | src/main/java/org/joker/comfypilot/permission/domain/entity/Role.java:73-81 | renaming succeeds exactly for a non-blank name of at most 100 chars, and then stores it as given; a null or blank name fails with "角色名称不能为空" |
| Roles.UpdateDescription | src/main/java/org/joker/comfypilot/permission/domain/entity/Role.java:86-91 | a description fails exactly when it is longer than 500 chars, with the length message; otherwise it is stored, null included |
| Roles.UpdatesKeepDeletability | src/main/java/org/joker/comfypilot/permission/domain/entity/Role.java:73-99 | renaming and re-describing never change whether a role can be deleted |
| Roles.CanDelete | src/main/java/org/joker/comfypilot/permission/domain/entity/Role.java:96-99 | a system role cannot be deleted; a role whose flag is null or false can |
| FileResources.IncrementDownloadCount | src/main/java/org/joker/comfypilot/resource/domain/entity/FileResource.java:100-105 | a null count becomes 1 and a count below Integer.MAX_VALUE grows by one, the count staying a 32-bit int; nothing else changes |
| FileResources.Downloads | src/main/java/org/joker/comfypilot/resource/domain/entity/FileResource.java:100-105 | repeated increments keep the count a 32-bit int |
| FileResources.DownloadsAddUp | src/main/java/org/joker/comfypilot/resource/domain/entity/FileResource.java:100-105 | n downloads add n to a non-negative count as long as the total stays within the 32-bit range |
| FileResources.UpdateBusinessInfo | src/main/java/org/joker/comfypilot/resource/domain/entity/FileResource.java:110-113 | updateBusinessInfo overwrites the business type and id, even with null, and nothing else |
| FileResources.FullPath | src/main/java/org/joker/comfypilot/resource/domain/entity/FileResource.java:118-120 | the full path is the file path, a slash and the stored name, with "null" for a missing part |
| FileResources.FullPathSplits | src/main/java/org/joker/comfypilot/resource/domain/entity/FileResource.java:118-120 | when the file path has no slash, the first slash of the full path separates the path from the stored name again |
| EnvFiles.ProcessLineShape | src/main/java/org/joker/comfypilot/common/config/EnvLoader.java:58-85 | a blank line, a comment line or a line without '=' sets nothing; a property that is set has a non-empty, trimmed key without '=' and a trimmed value |
| EnvFiles.EntryHalves | src/main/java/org/joker/comfypilot/common/config/EnvLoader.java:74-75 | the key (the trimmed text before the first '=') holds no '=' and trimming it again changes nothing, and the same holds for the value's trim |
| EnvFiles.ParseEntry | src/main/java/org/joker/comfypilot/common/config/EnvLoader.java:58-85 | a line key=value with a trimmed, '='-free key not starting with '#' and a trimmed value sets exactly that key to that value |
| EnvFiles.EntryLineTrimmed | src/main/java/org/joker/comfypilot/common/config/EnvLoader.java:60 | a line built from a trimmed key and a trimmed value is already trimmed |
| EnvFiles.EntryLineSplit | src/main/java/org/joker/comfypilot/common/config/EnvLoader.java:68-75 | the first '=' of key+"="+value is the one after the key, so the line splits back into key and value |
| EnvFiles.CommentIgnored | src/main/java/org/joker/comfypilot/common/config/EnvLoader.java:63-65 | a line starting with '#' and the empty line set nothing |
| EnvFiles.LoadAppend | src/main/java/org/joker/comfypilot/common/config/EnvLoader.java:43-53 | loading two blocks of lines is loading the first, then the second over the result |
| EnvFiles.LaterLineWins | src/main/java/org/joker/comfypilot/common/config/EnvLoader.java:48-51 | a later line for a key overwrites the value an earlier line set, and a line that sets nothing leaves the properties as they were |
| EnvFiles.MaskSensitiveValue | src/main/java/org/joker/comfypilot/common/config/EnvLoader.java:90-98 | the value is replaced by six stars exactly when the upper-cased key contains PASSWORD, SECRET or TOKEN |
| EnvFiles.SensitiveWordMasks | src/main/java/org/joker/comfypilot/common/config/EnvLoader.java:92-95 | a key containing one of the three words in any ASCII case, anywhere, is masked |
| EnvFiles.MaskIgnoresCase | src/main/java/org/joker/comfypilot/common/config/EnvLoader.java:90-98 | two keys equal up to case are masked alike |
| EnvFiles.ProcessLine | src/main/java/org/joker/comfypilot/common/config/EnvLoader.java:58-85 | a property that a line sets always has a non-empty key (a line whose trimmed key is empty sets nothing); the other shape facts are `EnvFiles.ProcessLineShape`'s |
| EnvFiles.Load | src/main/java/org/joker/comfypilot/common/config/EnvLoader.java:43-53 | loading keeps every property already present, and lines that set nothing leave the properties as they were |
| EnvFiles.LoadNewKeysFromLines | src/main/java/org/joker/comfypilot/common/config/EnvLoader.java:43-85 | every property that loading adds was set by one of the lines |
| EventPublisher.AddListener | src/main/java/org/joker/comfypilot/agent/domain/event/AgentEventPublisher.java:30-33 | addEventListener appends the listener to the end of its type's list, creating the list when missing, and leaves other types alone |
| EventPublisher.RemoveFirst | src/main/java/org/joker/comfypilot/agent/domain/event/AgentEventPublisher.java:44 | List.remove leaves a list without the listener unchanged and otherwise shortens it by one |
| EventPublisher.RemoveFirstAt | src/main/java/org/joker/comfypilot/agent/domain/event/AgentEventPublisher.java:44 | List.remove takes out exactly the first occurrence and keeps the order of the others |
| EventPublisher.RemoveFirstCount | src/main/java/org/joker/comfypilot/agent/domain/event/AgentEventPublisher.java:44 | List.remove takes out one copy of the listener and no other element |
| EventPublisher.RemoveListener | src/main/java/org/joker/comfypilot/agent/domain/event/AgentEventPublisher.java:41-47 | removeEventListener is a no-op for a type with no list and otherwise removes the listener from that type's list only |
| EventPublisher.Clear | src/main/java/org/joker/comfypilot/agent/domain/event/AgentEventPublisher.java:78-81 | clear leaves no listener of any type |
| EventPublisher.Deliver | src/main/java/org/joker/comfypilot/agent/domain/event/AgentEventPublisher.java:59-71 | the listeners called form a prefix of the list, in order, and a flag already set stays set |
| EventPublisher.Publish | src/main/java/org/joker/comfypilot/agent/domain/event/AgentEventPublisher.java:55-73 | publishing an event whose type has no listeners calls nothing and leaves the flag as it was |
| EventPublisher.DeliverStopsAtFirstCancel | src/main/java/org/joker/comfypilot/agent/domain/event/AgentEventPublisher.java:59-71 | listeners are called in order up to the first one that returns normally with the event cancelled, and only such a listener ends propagation early |
| EventPublisher.DeliverFlag | src/main/java/org/joker/comfypilot/agent/domain/event/AgentEventPublisher.java:61-64 | the flag after publishing is the flag the called listeners left |
| EventPublisher.DeliverNoEarlyStop | src/main/java/org/joker/comfypilot/agent/domain/event/AgentEventPublisher.java:59-67 | no listener before the last one called returned normally with the event cancelled |
| EventPublisher.DeliverStopsEarlyOnlyOnStop | src/main/java/org/joker/comfypilot/agent/domain/event/AgentEventPublisher.java:63-67 | when later listeners are skipped, the last one called returned normally with the event cancelled |
| EventPublisher.DeliverEndsEarlyCancelled | src/main/java/org/joker/comfypilot/agent/domain/event/AgentEventPublisher.java:63-67 | propagation that ends early always ends with the event cancelled by a listener that did not throw |
| EventPublisher.ThrowingListenerDoesNotStop | src/main/java/org/joker/comfypilot/agent/domain/event/AgentEventPublisher.java:60-70 | a listener that cancels and then throws does not stop propagation: the next listener is still called |
| EventPublisher.RemovedListenerNotCalled | src/main/java/org/joker/comfypilot/agent/domain/event/AgentEventPublisher.java:41-81 | a listener registered once and then removed, or any listener after clear, is not called by a later publish |
| FileInfos.EscapeJson | src/main/java/org/joker/comfypilot/common/tool/filesystem/FileInfo.java:57-60 | a null text escapes to the empty string |
| FileInfos.PassesConcat | src/main/java/org/joker/comfypilot/common/tool/filesystem/FileInfo.java:61-65 | the five chained replace passes distribute over concatenation, because no replacement creates a pattern of a later pass across the seam |
| FileInfos.PassesChar | src/main/java/org/joker/comfypilot/common/tool/filesystem/FileInfo.java:61-65 | on one char, the five passes give that char's escape: backslash, quote, newline, return and tab are escaped and every other char is kept |
| FileInfos.EscapeIsCharwise | src/main/java/org/joker/comfypilot/common/tool/filesystem/FileInfo.java:57-66 | escapeJson equals escaping each char on its own |
| FileInfos.UnescapeCharwise | src/main/java/org/joker/comfypilot/common/tool/filesystem/FileInfo.java:57-66 | reading the escapes back recovers the text, so escaping loses nothing |
| FileInfos.EscapeRoundTrip | src/main/java/org/joker/comfypilot/common/tool/filesystem/FileInfo.java:57-66 | escapeJson is invertible and its output holds no raw newline, return or tab |
| FileInfos.NoRawControls | src/main/java/org/joker/comfypilot/common/tool/filesystem/FileInfo.java:63-65 | the per-char escape leaves no raw newline, return or tab |
| FileInfos.ToJsonString | src/main/java/org/joker/comfypilot/common/tool/filesystem/FileInfo.java:40-49 | toJsonString always yields a brace-delimited object that starts with the name field |
| FileInfos.NullFieldsDefault | src/main/java/org/joker/comfypilot/common/tool/filesystem/FileInfo.java:43-47 | a null directory flag, size or time is written exactly as false, 0 and 0, and a null name or path as the empty string |
| FileUpload.LastDotOf | src/main/java/org/joker/comfypilot/resource/application/service/FileUploadService.java:123 | the last dot of stem+"."+ext is the one before ext when ext has no dot |
| FileUpload.Extension | src/main/java/org/joker/comfypilot/resource/application/service/FileUploadService.java:119-128 | a null or empty name, or a name without a dot, has the empty extension; an extension never holds a dot |
| FileUpload.ExtensionOfDotted | src/main/java/org/joker/comfypilot/resource/application/service/FileUploadService.java:119-128 | the extension of stem+"."+ext is ext lower-cased, whatever dots the stem holds |
| FileUpload.StoredName | src/main/java/org/joker/comfypilot/resource/application/service/FileUploadService.java:110-114 | the stored name is the UUID alone when there is no extension, and the UUID, a dot and the extension otherwise |
| FileUpload.StoredNameKeepsExtension | src/main/java/org/joker/comfypilot/resource/application/service/FileUploadService.java:110-128 | for a dot-free UUID, the stored name has the same extension as the original name |
| FileUpload.JavaDiv | src/main/java/org/joker/comfypilot/resource/application/service/FileUploadService.java:140 | Java's long division agrees with floor division on a non-negative dividend |
| FileUpload.ValidateFile | src/main/java/org/joker/comfypilot/resource/application/service/FileUploadService.java:133-141 | a missing or empty file fails with "文件不能为空" first, then a file over the limit fails with the size message in whole megabytes |
| FileUpload.ValidateIff | src/main/java/org/joker/comfypilot/resource/application/service/FileUploadService.java:133-151 | a file passes exactly when it is present and non-empty, within the limit, and has no extension or one listed literally in the comma-separated allowed list |
| FileUpload.SpaceAfterCommaRejects | src/main/java/org/joker/comfypilot/resource/application/service/FileUploadService.java:146-147 | the allowed list is split without trimming, so "jpg, png" does not allow "png" |
| ClientIp.Header | src/main/java/org/joker/comfypilot/common/util/IpUtil.java:36 | a header reads as present exactly when the request carries it |
| ClientIp.FirstHop | src/main/java/org/joker/comfypilot/common/util/IpUtil.java:39-42 | the first hop is the text before the first comma: it holds no comma, and a comma-free value is kept whole |
| ClientIp.FromHeader | src/main/java/org/joker/comfypilot/common/util/IpUtil.java:36-74 | a header yields a candidate exactly when it is present, non-empty and not "unknown" in any case |
| ClientIp.Candidates | src/main/java/org/joker/comfypilot/common/util/IpUtil.java:35-74 | the six headers are tried in the fixed order X-Forwarded-For, X-Real-IP, Proxy-Client-IP, WL-Proxy-Client-IP, HTTP_CLIENT_IP, HTTP_X_FORWARDED_FOR |
| ClientIp.GetClientIp | src/main/java/org/joker/comfypilot/common/util/IpUtil.java:28-31 | a null request gives 127.0.0.1 |
| ClientIp.FirstPresentAt | src/main/java/org/joker/comfypilot/common/util/IpUtil.java:35-74 | the first present candidate is the one chosen |
| ClientIp.IsValidIp | src/main/java/org/joker/comfypilot/common/util/IpUtil.java:92-96 | a null or empty value, and "unknown" in any case, is not a usable address |
| ClientIp.NothingPresent | src/main/java/org/joker/comfypilot/common/util/IpUtil.java:35-74 | with no candidate present, no header is chosen |
| ClientIp.FirstUsableHeaderWins | src/main/java/org/joker/comfypilot/common/util/IpUtil.java:35-74 | the first usable header in priority order is the one chosen, whatever later headers hold |
| ClientIp.NoUsableHeader | src/main/java/org/joker/comfypilot/common/util/IpUtil.java:35-76 | with no usable header the choice falls through to the remote address |
| ClientIp.HeaderPriority | src/main/java/org/joker/comfypilot/common/util/IpUtil.java:35-74 | the result is the trimmed first hop of X-Forwarded-For when that header is usable, and otherwise the trimmed value of the first usable header |
| ClientIp.RemoteFallback | src/main/java/org/joker/comfypilot/common/util/IpUtil.java:76-86 | with no usable header, a null remote address and the IPv6 loopback both give 127.0.0.1, and any other remote address is returned trimmed |
| ClientIp.UnknownFirstHopReturned | src/main/java/org/joker/comfypilot/common/util/IpUtil.java:36-43 | a forwarded-for list whose first hop is "unknown" passes the validity check as a whole, so "unknown" itself is returned |
| ClientIp.UnknownShape | src/main/java/org/joker/comfypilot/common/util/IpUtil.java:92-96 | a list starting with "unknown," is not itself "unknown", so it is valid |
| ClientIp.FirstHopOfList | src/main/java/org/joker/comfypilot/common/util/IpUtil.java:39-42 | the first hop of u+","+rest is u when u has no comma |
| JavaStrings.Wrap32 | src/main/java/org/joker/comfypilot/agent/infrastructure/registry/AgentRegistryImpl.java:171 | 32-bit int arithmetic: the wrapped value is a 32-bit int congruent to the true one, and equal to it when that fits |
| JavaStrings.Trim | src/main/java/org/joker/comfypilot/model/application/service/impl/AiModelServiceImpl.java:55 | String.trim returns the infix left after removing every leading and trailing character up to U+0020, and is empty exactly when every character is such |
| JavaStrings.TrimOfTrimmed | src/main/java/org/joker/comfypilot/model/application/service/impl/AiModelServiceImpl.java:55 | trimming is idempotent |
| JavaStrings.TrimPadded | src/main/java/org/joker/comfypilot/script/detector/PythonRuntimeDetector.java:329 | trimming removes one space on each side of text that has no padding of its own |
| JavaStrings.Lower | src/main/java/org/joker/comfypilot/model/application/service/impl/AiModelServiceImpl.java:57 | toLowerCase maps every character on its own and keeps the length |
| JavaStrings.IndexOf | src/main/java/org/joker/comfypilot/common/util/WgetUtil.java:214 | indexOf finds the first occurrence, or -1 exactly when the character is absent |
| JavaStrings.LastIndexOf | src/main/java/org/joker/comfypilot/common/util/WgetUtil.java:211 | lastIndexOf finds the last occurrence, or -1 exactly when the character is absent |
| JavaStrings.ReplaceCharRemoves | src/main/java/org/joker/comfypilot/common/infrastructure/persistence/interceptor/LogicalDeleteInsertInterceptor.java:242 | replacing a character by text without it leaves no occurrence |
| JavaStrings.RawSplit | src/main/java/org/joker/comfypilot/script/detector/PythonRuntimeDetector.java:327 | splitting yields separator-free pieces that join back to the input |
| JavaStrings.Split | src/main/java/org/joker/comfypilot/script/detector/PythonRuntimeDetector.java:215 | String.split drops trailing empty pieces of the raw split and returns the input itself when the separator is absent |
| JavaStrings.SplitJoin | src/main/java/org/joker/comfypilot/session/infrastructure/websocket/WebSocketAuthInterceptor.java:51 | splitting joined separator-free pieces whose last is non-empty gives back the pieces |
| JavaStrings.NatToStringValue | src/main/java/org/joker/comfypilot/agent/domain/agent/workflow/WorkflowAgent.java:335 | the decimal rendering of a number reads back as that number |
| JavaStrings.ParseInt | src/main/java/org/joker/comfypilot/agent/infrastructure/registry/AgentRegistryImpl.java:168 | Integer.parseInt only ever yields a 32-bit int, and null or empty text fails |
| JavaStrings.ParseIntToString | src/main/java/org/joker/comfypilot/agent/infrastructure/registry/AgentRegistryImpl.java:168 | parsing the decimal rendering of a 32-bit int gives it back |
| JsonValues.Get | src/main/java/org/joker/comfypilot/common/util/McpSchemaUtil.java:81-82 | Map.get finds a value only under a present key, never a JSON null, and finds nothing for an absent key |
| JsonValues.GetUnique | src/main/java/org/joker/comfypilot/common/util/McpSchemaUtil.java:81-82 | in a map without repeated keys, the lookup finds the value stored under a key wherever it sits, a JSON null reading as null |
| JsonValues.GetAppend | src/main/java/org/joker/comfypilot/common/util/McpSchemaUtil.java:381-409 | a lookup in a map built in parts finds the first part that has the key |
| JsonValues.HasKeyAppend | src/main/java/org/joker/comfypilot/common/util/McpSchemaUtil.java:381-409 | a key is in a map built in parts exactly when it is in one of the parts |
| JsonValues.FromStrings | src/main/java/org/joker/comfypilot/common/util/McpSchemaUtil.java:356 | a list of strings written as JSON reads back as the same strings |
| LogicalDeleteInsert.SplitWords | src/main/java/org/joker/comfypilot/common/infrastructure/persistence/interceptor/LogicalDeleteInsertInterceptor.java:257 | inserting underscores never shortens a name |
| LogicalDeleteInsert.CamelToUnderscore | src/main/java/org/joker/comfypilot/common/infrastructure/persistence/interceptor/LogicalDeleteInsertInterceptor.java:256-258 | the column name contains no upper-case ASCII letter |
| LogicalDeleteInsert.UnscoredAppend | src/main/java/org/joker/comfypilot/common/infrastructure/persistence/interceptor/LogicalDeleteInsertInterceptor.java:257 | removing underscores distributes over concatenation |
| LogicalDeleteInsert.SplitWordsOnlyAddsUnderscores | src/main/java/org/joker/comfypilot/common/infrastructure/persistence/interceptor/LogicalDeleteInsertInterceptor.java:257 | the lower-upper rewrite only inserts underscores: with underscores removed, the name is unchanged |
| LogicalDeleteInsert.SplitWordsNoUpper | src/main/java/org/joker/comfypilot/common/infrastructure/persistence/interceptor/LogicalDeleteInsertInterceptor.java:257 | a name without capitals is not rewritten |
| LogicalDeleteInsert.CamelToUnderscoreIdempotent | src/main/java/org/joker/comfypilot/common/infrastructure/persistence/interceptor/LogicalDeleteInsertInterceptor.java:256-258 | converting a converted column name again changes nothing |
| LogicalDeleteInsert.SplitWordsPair | src/main/java/org/joker/comfypilot/common/infrastructure/persistence/interceptor/LogicalDeleteInsertInterceptor.java:257 | a lower-case letter followed by a capital gets an underscore between them |
| LogicalDeleteInsert.TwoWords | src/main/java/org/joker/comfypilot/common/infrastructure/persistence/interceptor/LogicalDeleteInsertInterceptor.java:257 | a name of two camel-case words gets exactly one underscore at the word boundary |
| LogicalDeleteInsert.PrefixWithoutPairs | src/main/java/org/joker/comfypilot/common/infrastructure/persistence/interceptor/LogicalDeleteInsertInterceptor.java:257 | a capital-free prefix is copied unchanged up to its last letter |
| LogicalDeleteInsert.TableName | src/main/java/org/joker/comfypilot/common/infrastructure/persistence/interceptor/LogicalDeleteInsertInterceptor.java:236-243 | a non-empty @TableName value is used as the table name |
| LogicalDeleteInsert.ReplaceAfterAbsent | src/main/java/org/joker/comfypilot/common/infrastructure/persistence/interceptor/LogicalDeleteInsertInterceptor.java:242 | String.replace leaves a prefix without the target's first letter unchanged |
| LogicalDeleteInsert.PersistentObjectSuffixDropped | src/main/java/org/joker/comfypilot/common/infrastructure/persistence/interceptor/LogicalDeleteInsertInterceptor.java:242 | without an annotation, a class name ending in "PO" (with no other 'P') gives the converted name without the suffix |
| LogicalDeleteInsert.Lookup | src/main/java/org/joker/comfypilot/common/infrastructure/persistence/interceptor/LogicalDeleteInsertInterceptor.java:306-307 | a key found maps to a stored pair, and a key is missing exactly when no entry has it |
| LogicalDeleteInsert.Put | src/main/java/org/joker/comfypilot/common/infrastructure/persistence/interceptor/LogicalDeleteInsertInterceptor.java:314-316 | a map put adds at most one entry; afterwards the key maps to the new value and every other key to what it mapped to before |
| LogicalDeleteInsert.AddToGroup | src/main/java/org/joker/comfypilot/common/infrastructure/persistence/interceptor/LogicalDeleteInsertInterceptor.java:318-321 | adding a composite-key field never empties a group and leaves a non-empty group list |
| LogicalDeleteInsert.AddToGroupContents | src/main/java/org/joker/comfypilot/common/infrastructure/persistence/interceptor/LogicalDeleteInsertInterceptor.java:318-321 | computeIfAbsent then put: the group exists afterwards and maps the field to its value; the group's other fields and every other group are unchanged |
| LogicalDeleteInsert.AddField | src/main/java/org/joker/comfypilot/common/infrastructure/persistence/interceptor/LogicalDeleteInsertInterceptor.java:113-134 | a null value contributes nothing; a non-null TableId field becomes the primary key; a non-null UniqueKey field is stored under its name among the single keys when its group is empty, else in its group; every other entry is unchanged |
| LogicalDeleteInsert.ExtractKeyInfo | src/main/java/org/joker/comfypilot/common/infrastructure/persistence/interceptor/LogicalDeleteInsertInterceptor.java:103-145 | the extracted key information never holds an empty composite group |
| LogicalDeleteInsert.PrimaryKeyPresent | src/main/java/org/joker/comfypilot/common/infrastructure/persistence/interceptor/LogicalDeleteInsertInterceptor.java:113-123 | there is a primary key exactly when some field is a non-null TableId field |
| LogicalDeleteInsert.PrimaryKeyLatest | src/main/java/org/joker/comfypilot/common/infrastructure/persistence/interceptor/LogicalDeleteInsertInterceptor.java:108-123 | the primary key is the name and value of the last non-null TableId field in iteration order |
| LogicalDeleteInsert.SinglePresent | src/main/java/org/joker/comfypilot/common/infrastructure/persistence/interceptor/LogicalDeleteInsertInterceptor.java:113-133 | a name is a single unique key exactly when some non-null field with that name has a UniqueKey annotation with an empty group |
| LogicalDeleteInsert.SingleLatest | src/main/java/org/joker/comfypilot/common/infrastructure/persistence/interceptor/LogicalDeleteInsertInterceptor.java:108-133 | a single unique key holds the value of the last non-null single-key field with its name |
| LogicalDeleteInsert.GroupPresent | src/main/java/org/joker/comfypilot/common/infrastructure/persistence/interceptor/LogicalDeleteInsertInterceptor.java:113-137 | a composite group exists exactly when some non-null field names it in its UniqueKey annotation |
| LogicalDeleteInsert.GroupFieldPresent | src/main/java/org/joker/comfypilot/common/infrastructure/persistence/interceptor/LogicalDeleteInsertInterceptor.java:113-137 | a field name is in a composite group exactly when some non-null field of that group has the name |
| LogicalDeleteInsert.GroupFieldLatest | src/main/java/org/joker/comfypilot/common/infrastructure/persistence/interceptor/LogicalDeleteInsertInterceptor.java:108-137 | within a group, a field holds the value of the last non-null field of the group with its name |
| LogicalDeleteInsert.GroupParts | src/main/java/org/joker/comfypilot/common/infrastructure/persistence/interceptor/LogicalDeleteInsertInterceptor.java:285-293 | a composite group gives one "column = ?" part and one parameter per field, in field order |
| LogicalDeleteInsert.FirstNonEmptyGroup | src/main/java/org/joker/comfypilot/common/infrastructure/persistence/interceptor/LogicalDeleteInsertInterceptor.java:283-295 | the chosen group is a non-empty stored group, and there is none exactly when every group is empty |
| LogicalDeleteInsert.BuildQueryCondition | src/main/java/org/joker/comfypilot/common/infrastructure/persistence/interceptor/LogicalDeleteInsertInterceptor.java:263-298 | the primary key wins, then the first single unique key, then a composite group; every condition has at least one parameter |
| LogicalDeleteInsert.SingleKeyCondition | src/main/java/org/joker/comfypilot/common/infrastructure/persistence/interceptor/LogicalDeleteInsertInterceptor.java:272-279 | with no non-null TableId field and some non-null single unique key, the condition tests one declared single key's column against that key's extracted value |
| LogicalDeleteInsert.ConditionIffKeys | src/main/java/org/joker/comfypilot/common/infrastructure/persistence/interceptor/LogicalDeleteInsertInterceptor.java:263-298 | there is no query condition exactly when the insert carries no key at all |
| LogicalDeleteInsert.CompositeCondition | src/main/java/org/joker/comfypilot/common/infrastructure/persistence/interceptor/LogicalDeleteInsertInterceptor.java:283-293 | a composite condition joins its parts with " AND " and binds the group's values in order |
| LogicalDeleteInsert.PrimaryKeyFirst | src/main/java/org/joker/comfypilot/common/infrastructure/persistence/interceptor/LogicalDeleteInsertInterceptor.java:265-270 | with a primary key, the unique keys do not affect the condition |
| LogicalDeleteInsert.Decide | src/main/java/org/joker/comfypilot/common/infrastructure/persistence/interceptor/LogicalDeleteInsertInterceptor.java:186-214 | no matching row proceeds; several rows refuse as inconsistent; one logically deleted row is physically deleted by id first; one live row refuses the insert |
| LogicalDeleteInsert.IsDeleted | src/main/java/org/joker/comfypilot/common/infrastructure/persistence/interceptor/LogicalDeleteInsertInterceptor.java:204 | a null flag and the number 0 mean an active row; any other number, and any text, mean a deleted row |
| LogicalDeleteInsert.FindLogicDeleteField | src/main/java/org/joker/comfypilot/common/infrastructure/persistence/interceptor/LogicalDeleteInsertInterceptor.java:87-98 | a found logic-delete field is one of the entity's fields |
| LogicalDeleteInsert.Intercept | src/main/java/org/joker/comfypilot/common/infrastructure/persistence/interceptor/LogicalDeleteInsertInterceptor.java:38-72 | a non-insert, a null parameter, an entity without a logic-delete field, or one without keys proceeds untouched |
| McpSchema.GetString | src/main/java/org/joker/comfypilot/common/util/McpSchemaUtil.java:81-82 | a missing or null key reads as null, a string as its text, and anything else fails the (String) cast |
| McpSchema.FromObject | src/main/java/org/joker/comfypilot/common/util/McpSchemaUtil.java:73-110 | a JSON null reads as the null schema and any other non-map as no element; a map whose "type" or "description" is not a string fails the cast; type "integer" gives an integer schema with the description |
| McpSchema.FromArray | src/main/java/org/joker/comfypilot/common/util/McpSchemaUtil.java:166-183 | without items the array schema has none; items whose "type" is not a string fail the cast; a result is always an array schema with the given description |
| McpSchema.FromObjectMap | src/main/java/org/joker/comfypilot/common/util/McpSchemaUtil.java:189-223 | a "required" array holding a non-string fails; a result is an object schema with the given description and no definitions, whose required list is set exactly when "required" is an array and whose additionalProperties is set exactly when that key holds a boolean |
| McpSchema.FromAnyOf | src/main/java/org/joker/comfypilot/common/util/McpSchemaUtil.java:229-251 | without an anyOf array the result is an anyOf schema with no alternatives; a result is always an anyOf schema with the given description |
| McpSchema.StripReference | src/main/java/org/joker/comfypilot/common/util/McpSchemaUtil.java:260-261 | a reference without any '#' is left unchanged by the two replace calls |
| McpSchema.FromDefinitions | src/main/java/org/joker/comfypilot/common/util/McpSchemaUtil.java:52-63 | an absent or empty definitions source gives no definitions, and a result has at most one definition per source entry |
| McpSchema.FromString | src/main/java/org/joker/comfypilot/common/util/McpSchemaUtil.java:116-130 | a string schema with an "enum" key becomes an enum schema (or fails the cast); without one it is a plain string schema with the description |
| McpSchema.FromReference | src/main/java/org/joker/comfypilot/common/util/McpSchemaUtil.java:256-266 | a reference schema keeps the $ref text with the "#/definitions/" and "#/$defs/" prefixes removed; a missing $ref gives no element |
| McpSchema.FromProperties | src/main/java/org/joker/comfypilot/common/util/McpSchemaUtil.java:189-225 | properties whose schema converts to nothing are dropped, so there are never more properties than entries |
| McpSchema.FromList | src/main/java/org/joker/comfypilot/common/util/McpSchemaUtil.java:236-247 | alternatives that convert to nothing are dropped |
| McpSchema.ToJsonObjectSchema | src/main/java/org/joker/comfypilot/common/util/McpSchemaUtil.java:23-66 | a null schema gives null; otherwise an object schema without description carrying the required list and additionalProperties of the input |
| McpSchema.DefinitionsSource | src/main/java/org/joker/comfypilot/common/util/McpSchemaUtil.java:52-53 | a non-empty $defs is used, and otherwise definitions |
| McpSchema.ToObject | src/main/java/org/joker/comfypilot/common/util/McpSchemaUtil.java:312-350 | every element is written as a JSON object |
| McpSchema.ToMembers | src/main/java/org/joker/comfypilot/common/util/McpSchemaUtil.java:389-397 | each property is written under its own name, in order |
| McpSchema.ToList | src/main/java/org/joker/comfypilot/common/util/McpSchemaUtil.java:421-429 | one written alternative per element |
| McpSchema.ToMcpJsonSchema | src/main/java/org/joker/comfypilot/common/util/McpSchemaUtil.java:275-308 | an object schema becomes an MCP schema of type "object" with the same required list and additionalProperties, properties exactly when there are some, and $defs exactly when there are definitions |
| McpSchema.NormalProperties | src/main/java/org/joker/comfypilot/common/util/McpSchemaUtil.java:189-225 | normalising keeps one property per property |
| McpSchema.NormalList | src/main/java/org/joker/comfypilot/common/util/McpSchemaUtil.java:229-250 | normalising keeps one alternative per alternative |
| McpSchema.ReferenceRoundTrip | src/main/java/org/joker/comfypilot/common/util/McpSchemaUtil.java:256-266 | a reference written with the "#/$defs/" prefix reads back as itself |
| McpSchema.DefinitionsReferenceStripped | src/main/java/org/joker/comfypilot/common/util/McpSchemaUtil.java:260-261 | a "#/definitions/" reference reads back without its prefix |
| McpSchema.RoundTrip | src/main/java/org/joker/comfypilot/common/util/McpSchemaUtil.java:73-110 | writing an element to a map and reading it back gives the element, up to the normalisation of empty lists |
| McpSchema.PrimitiveRoundTrip | src/main/java/org/joker/comfypilot/common/util/McpSchemaUtil.java:98-101 | string, integer, number and boolean schemas survive writing and reading unchanged |
| McpSchema.PrimitiveMapLookup | src/main/java/org/joker/comfypilot/common/util/McpSchemaUtil.java:320-335 | a primitive's map holds its type and description and no "enum" key |
| McpSchema.TypedRead | src/main/java/org/joker/comfypilot/common/util/McpSchemaUtil.java:96-106 | the reader dispatches on the type text to the matching converter |
| McpSchema.EnumRoundTrip | src/main/java/org/joker/comfypilot/common/util/McpSchemaUtil.java:116-125 | an enum schema survives writing and reading unchanged |
| McpSchema.EnumMapLookup | src/main/java/org/joker/comfypilot/common/util/McpSchemaUtil.java:353-361 | an enum's map holds type "string", its values under "enum" and its description |
| McpSchema.ArrayRoundTrip | src/main/java/org/joker/comfypilot/common/util/McpSchemaUtil.java:166-185 | an array schema survives writing and reading when its item schema does |
| McpSchema.ArrayMapLookup | src/main/java/org/joker/comfypilot/common/util/McpSchemaUtil.java:366-377 | an array's map holds type "array", its description and its items |
| McpSchema.ArrayFieldsRead | src/main/java/org/joker/comfypilot/common/util/McpSchemaUtil.java:166-185 | the array reader takes the converted items |
| McpSchema.ObjectMapLookup | src/main/java/org/joker/comfypilot/common/util/McpSchemaUtil.java:381-409 | an object's map holds its type, description, non-empty properties, non-empty required list and additionalProperties |
| McpSchema.ObjectMapKey | src/main/java/org/joker/comfypilot/common/util/McpSchemaUtil.java:381-409 | each of an object map's five keys reads back the value written under it |
| McpSchema.ObjectRoundTrip | src/main/java/org/joker/comfypilot/common/util/McpSchemaUtil.java:189-225 | an object schema survives writing and reading when its properties do |
| McpSchema.ObjectMapRead | src/main/java/org/joker/comfypilot/common/util/McpSchemaUtil.java:189-225 | reading a written object map gives back its properties, required list and additionalProperties |
| McpSchema.ObjectFieldsRead | src/main/java/org/joker/comfypilot/common/util/McpSchemaUtil.java:189-225 | the object reader takes the converted properties, a non-empty required list and additionalProperties |
| McpSchema.AnyOfMapLookup | src/main/java/org/joker/comfypilot/common/util/McpSchemaUtil.java:414-433 | an anyOf map has no type, its description, and its alternatives exactly when there are some |
| McpSchema.AnyOfRoundTrip | src/main/java/org/joker/comfypilot/common/util/McpSchemaUtil.java:229-250 | an anyOf schema survives writing and reading when its alternatives do |
| McpSchema.EmptyAnyOfReads | src/main/java/org/joker/comfypilot/common/util/McpSchemaUtil.java:84-94 | a written anyOf without alternatives has neither "type" nor "anyOf" nor "$ref", so it reads back as an object schema with its description and nothing else |
| McpSchema.NonEmptyAnyOfReads | src/main/java/org/joker/comfypilot/common/util/McpSchemaUtil.java:229-251 | a written anyOf with alternatives reads back as an anyOf schema with its description and the alternatives as read |
| McpSchema.PropertiesRoundTrip | src/main/java/org/joker/comfypilot/common/util/McpSchemaUtil.java:189-225 | written properties read back, normalised |
| McpSchema.ListRoundTrip | src/main/java/org/joker/comfypilot/common/util/McpSchemaUtil.java:236-247 | written alternatives read back, normalised |
| McpSchema.McpRoundTrip | src/main/java/org/joker/comfypilot/common/util/McpSchemaUtil.java:23-66 | converting an object schema to the MCP form and back keeps its properties, required list, additionalProperties and definitions |
| McpSchema.DefsWinOverDefinitions | src/main/java/org/joker/comfypilot/common/util/McpSchemaUtil.java:52-53 | with a non-empty $defs, the definitions field is ignored |
| McpSchema.DefinitionsWhenDefsEmpty | src/main/java/org/joker/comfypilot/common/util/McpSchemaUtil.java:52-53 | with no or an empty $defs, definitions are read as if they were $defs |
| McpSchema.UnknownTypeDropped | src/main/java/org/joker/comfypilot/common/util/McpSchemaUtil.java:96-108 | an unknown type text converts to nothing, and a property with such a schema is dropped |
| McpSchema.NonStringTypeFails | src/main/java/org/joker/comfypilot/common/util/McpSchemaUtil.java:81 | a non-string "type" value fails the cast |
| McpSchema.NormalIdempotent | src/main/java/org/joker/comfypilot/common/util/McpSchemaUtil.java:73-110 | normalising twice is normalising once |
| ModelCallingTypes.FromCode | src/main/java/org/joker/comfypilot/model/domain/enums/ModelCallingType.java:51-58 | fromCode succeeds exactly when some constant's code equals the text, returns that constant, and otherwise fails with "未知的模型调用方式: " and the text (or "null") |
| ModelCallingTypes.FromCodeOfCode | src/main/java/org/joker/comfypilot/model/domain/enums/ModelCallingType.java:51-58 | looking up a constant's own code gives back that constant |
| ModelCallingTypes.UpperCaseRejected | src/main/java/org/joker/comfypilot/model/domain/enums/ModelCallingType.java:51-58 | the match is case-sensitive: "API_LLM" is not a code |
| AiModels.CollapseSpaces | src/main/java/org/joker/comfypilot/model/application/service/impl/AiModelServiceImpl.java:57 | the underscored name contains no whitespace and is no longer than the input |
| AiModels.CollapseKeepsSpaceless | src/main/java/org/joker/comfypilot/model/application/service/impl/AiModelServiceImpl.java:57 | a name without whitespace is left unchanged |
| AiModels.SpaceRunsCollapse | src/main/java/org/joker/comfypilot/model/application/service/impl/AiModelServiceImpl.java:57 | a whitespace run of any length and mix becomes a single underscore |
| AiModels.DeriveIdentifier | src/main/java/org/joker/comfypilot/model/application/service/impl/AiModelServiceImpl.java:54-59 | a requested identifier with text is kept as given; otherwise the identifier is the lower-cased model name with whitespace runs replaced by "_", and a missing name is a null-pointer failure |
| AiModels.DerivedIdentifierHasNoSpaces | src/main/java/org/joker/comfypilot/model/application/service/impl/AiModelServiceImpl.java:54-59 | a derived identifier never contains whitespace |
| AiModels.ParseCallingType | src/main/java/org/joker/comfypilot/model/application/service/impl/AiModelServiceImpl.java:276-285 | a missing or blank code fails with "模型调用方式不能为空", an unknown one with "无效的模型调用方式: " plus the code, and success agrees with fromCode |
| AiModels.Classify | src/main/java/org/joker/comfypilot/model/application/service/impl/AiModelServiceImpl.java:79-95 | only the sentence-transformers type is local, only api_llm is an LLM |
| AiModels.ClassifyInjective | src/main/java/org/joker/comfypilot/model/application/service/impl/AiModelServiceImpl.java:79-95 | the access and model types together determine the calling type |
| AiModels.ParseProviderType | src/main/java/org/joker/comfypilot/model/application/service/impl/AiModelServiceImpl.java:290-299 | a missing or blank provider code gives no provider; an unknown code fails with "无效的提供协议类型: " plus the code |
| AiModels.ParseConfig | src/main/java/org/joker/comfypilot/model/application/service/impl/AiModelServiceImpl.java:304-315 | a missing or blank config is an empty map; a parse error fails with "无效的模型配置 JSON 格式: " plus the parser's message |
| AiModels.CreateModel | src/main/java/org/joker/comfypilot/model/application/service/impl/AiModelServiceImpl.java:52-121 | a created model has an identifier not yet stored, an existing provider or none, the access and model types of its calling type, and the calling type the request names |
| AiModels.CreatedIdentifierIsFresh | src/main/java/org/joker/comfypilot/model/application/service/impl/AiModelServiceImpl.java:60-65 | storing a created model keeps the identifiers of the stored models pairwise distinct |
| AiModels.ListEnabled | src/main/java/org/joker/comfypilot/model/application/service/impl/AiModelServiceImpl.java:237-244 | an unknown calling type fails; otherwise the listing holds exactly the enabled stored models of that type |
| AiModels.Keep | src/main/java/org/joker/comfypilot/model/application/service/impl/AiModelServiceImpl.java:239-242 | the filter keeps exactly the enabled models of the given type |
| Paging.Saturate | src/main/java/org/joker/comfypilot/common/application/dto/PageResponse.java:70 | the (int) cast of a double keeps an in-range value and clamps anything above or below the 32-bit range to Integer.MAX_VALUE or Integer.MIN_VALUE |
| Paging.CeilDiv | src/main/java/org/joker/comfypilot/common/application/dto/PageResponse.java:70 | for a positive divisor, Math.ceil of the quotient is the least r with a <= r * b |
| Paging.TotalPages | src/main/java/org/joker/comfypilot/common/application/dto/PageResponse.java:70 | the page count is always a 32-bit int; a zero page size gives the saturated infinity (MAX_VALUE for a positive total, MIN_VALUE for a negative one) or 0 for NaN; otherwise the saturated ceiling of total / pageSize |
| Paging.NewPage | src/main/java/org/joker/comfypilot/common/application/dto/PageResponse.java:65-73 | the paging constructor fails (unboxing a null) exactly when total, pageNum or pageSize is null; otherwise it keeps the records and total, and hasNext is pageNum < totalPages and hasPrevious is pageNum > 1 |
| Paging.PagesCoverTotal | src/main/java/org/joker/comfypilot/common/application/dto/PageResponse.java:70 | for a non-negative total and a positive page size, the pages hold every record with no empty page, and there are no pages exactly when there are no records |
| Paging.LastPageHasNoNext | src/main/java/org/joker/comfypilot/common/application/dto/PageResponse.java:71 | the last page has no next page and the page before it does |
| Paging.Empty | src/main/java/org/joker/comfypilot/common/application/dto/PageResponse.java:81-83 | empty() is page 1 of size 10 with no records, no pages and neither neighbour |
| Paging.EmptyAgreesWithConstructor | src/main/java/org/joker/comfypilot/common/application/dto/PageResponse.java:65-83 | empty() equals what the constructor computes for no records, total 0, page 1 and size 10 |
| PermissionService.RolesOf | src/main/java/org/joker/comfypilot/permission/application/service/impl/PermissionServiceImpl.java:49 | the roles found for a user are exactly the role ids linked to that user |
| PermissionService.AssignRole | src/main/java/org/joker/comfypilot/permission/application/service/impl/PermissionServiceImpl.java:82-106 | an unknown role code fails with "角色不存在: " and the code; a role the user already has changes nothing; otherwise exactly one user-role link is added |
| PermissionService.AssignIdempotent | src/main/java/org/joker/comfypilot/permission/application/service/impl/PermissionServiceImpl.java:87-95 | assigning the same role a second time leaves the links as the first assignment left them |
| PermissionService.AssignGrants | src/main/java/org/joker/comfypilot/permission/application/service/impl/PermissionServiceImpl.java:82-106 | after a successful assignment the user has the role, and every other user's roles are unchanged |
| PermissionService.Distinct | src/main/java/org/joker/comfypilot/permission/application/service/impl/PermissionServiceImpl.java:75-78 | Stream.distinct keeps exactly the codes of its input with no repetitions |
| PermissionService.DistinctKeepsUnique | src/main/java/org/joker/comfypilot/permission/application/service/impl/PermissionServiceImpl.java:75-78 | distinct leaves a repetition-free list as it is, order included |
| PermissionService.PermissionsOfRoles | src/main/java/org/joker/comfypilot/permission/application/service/impl/PermissionServiceImpl.java:72 | the permissions fetched for a list of roles are exactly the codes granted to one of them |
| PermissionService.UserPermissions | src/main/java/org/joker/comfypilot/permission/application/service/impl/PermissionServiceImpl.java:59-79 | a user with no roles has no permissions; otherwise the result lists, each once, exactly the codes granted to some role the user holds |
| PythonRuntime.CandidatePaths | src/main/java/org/joker/comfypilot/script/detector/PythonRuntimeDetector.java:235-259 | a null configured path makes List.of fail; otherwise the configured path comes first, followed by the five Windows candidates when the lower-cased OS name contains "win" and the five Unix candidates otherwise |
| PythonRuntime.StripQuotes | src/main/java/org/joker/comfypilot/script/detector/PythonRuntimeDetector.java:330 | removing the surrounding quotes never lengthens an item |
| PythonRuntime.CleanAll | src/main/java/org/joker/comfypilot/script/detector/PythonRuntimeDetector.java:327-332 | every split piece is trimmed, stripped of its surrounding quotes and unescaped, in order |
| PythonRuntime.ParseSitePackages | src/main/java/org/joker/comfypilot/script/detector/PythonRuntimeDetector.java:312-337 | a null output gives null, and a list comes back exactly when the trimmed output is bracketed |
| PythonRuntime.EscapeKeeps | src/main/java/org/joker/comfypilot/script/detector/PythonRuntimeDetector.java:331 | escaping backslashes adds and removes no other character |
| PythonRuntime.UnescapeEscape | src/main/java/org/joker/comfypilot/script/detector/PythonRuntimeDetector.java:331 | replacing doubled backslashes undoes json.dumps' backslash escaping |
| PythonRuntime.TrimQuoted | src/main/java/org/joker/comfypilot/script/detector/PythonRuntimeDetector.java:329 | trimming a quoted item that follows ", " leaves the quoted item |
| PythonRuntime.CleanPiece | src/main/java/org/joker/comfypilot/script/detector/PythonRuntimeDetector.java:329-331 | each rendered item cleans back to its path |
| PythonRuntime.ParseBracketed | src/main/java/org/joker/comfypilot/script/detector/PythonRuntimeDetector.java:315-332 | bracketed output with content splits the content at commas and cleans each piece |
| PythonRuntime.ContentSplits | src/main/java/org/joker/comfypilot/script/detector/PythonRuntimeDetector.java:327 | splitting the rendered list at commas gives exactly its items when no path contains a comma |
| PythonRuntime.EmptyList | src/main/java/org/joker/comfypilot/script/detector/PythonRuntimeDetector.java:322-324 | "[]" reads as the empty list |
| PythonRuntime.CleanAllPieces | src/main/java/org/joker/comfypilot/script/detector/PythonRuntimeDetector.java:327-332 | cleaning all rendered items gives back the paths |
| PythonRuntime.ParseRender | src/main/java/org/joker/comfypilot/script/detector/PythonRuntimeDetector.java:312-332 | parsing a rendered non-empty list cleans its rendered items |
| PythonRuntime.RoundTripNonEmpty | src/main/java/org/joker/comfypilot/script/detector/PythonRuntimeDetector.java:312-332 | a non-empty list rendered as json.dumps does parses back to itself |
| PythonRuntime.SitePackagesRoundTrip | src/main/java/org/joker/comfypilot/script/detector/PythonRuntimeDetector.java:265-332 | json.dumps of any list of plain paths (printable ASCII, no quote, no comma) parses back to the same list |
| PythonRuntime.CommaSplitsPath | src/main/java/org/joker/comfypilot/script/detector/PythonRuntimeDetector.java:327 | a path containing a comma comes back as two paths: the comma-free restriction is needed |
| PythonRuntime.SplitTwo | src/main/java/org/joker/comfypilot/script/detector/PythonRuntimeDetector.java:327 | text with one comma splits into its two sides |
| PythonRuntime.ParseTwoPieces | src/main/java/org/joker/comfypilot/script/detector/PythonRuntimeDetector.java:315-332 | a bracketed two-piece content parses to its two cleaned pieces |
| ReactLoop.BuildToolResultText | src/main/java/org/joker/comfypilot/agent/domain/react/ReactExecutor.java:305-315 | a response not explicitly allowed gives "工具调用被拒绝", an allowed but unsuccessful one "工具执行失败: " plus its error, and only an allowed, successful one passes its result through |
| ReactLoop.Settle | src/main/java/org/joker/comfypilot/agent/domain/react/ReactExecutor.java:267-279 | a response that arrives is used as is; a failed wait becomes a refused, unsuccessful response whose error reads "等待响应超时或被中断: " plus the reason |
| ReactLoop.FailedWaitIsRejection | src/main/java/org/joker/comfypilot/agent/domain/react/ReactExecutor.java:267-280 | a failed wait always reaches the model as a rejection |
| ReactLoop.ResultPassesOnlyWhenAllowedAndSuccessful | src/main/java/org/joker/comfypilot/agent/domain/react/ReactExecutor.java:305-315 | the result text is the tool's result, the rejection text or the failure text, and a tool's own result that is neither the rejection nor the failure text only reaches the model when the call was allowed and succeeded |
| ReactLoop.ResultMessages | src/main/java/org/joker/comfypilot/agent/domain/react/ReactExecutor.java:241-300 | one tool-result message per requested call, or an error when a result text is null |
| ReactLoop.ResultMessagesSpec | src/main/java/org/joker/comfypilot/agent/domain/react/ReactExecutor.java:253-300 | each result message answers its own request with that call's result text, in request order; the round fails exactly when some result text is null |
| ReactLoop.Requests | src/main/java/org/joker/comfypilot/agent/domain/react/ReactExecutor.java:150-160 | the AI message records the tool requests in the order the model made them |
| ReactLoop.Run | src/main/java/org/joker/comfypilot/agent/domain/react/ReactExecutor.java:73-200 | a run only appends to the memory, makes at most the remaining number of model calls, uses the initial tool choice first and AUTO on every later round |
| ReactLoop.ExecuteReactLoop | src/main/java/org/joker/comfypilot/agent/domain/react/ReactExecutor.java:55-68 | a loop first sends the THINKING prompt, makes at most 10 model calls and only appends to the memory |
| ReactLoop.RunawayStopsAtCap | src/main/java/org/joker/comfypilot/agent/domain/react/ReactExecutor.java:82-180 | a model that asks for tools every round, uninterrupted, gets exactly the remaining rounds and ends with the "达到最大迭代次数 10，执行终止" error |
| ReactLoop.ToolRoundsFromAll | src/main/java/org/joker/comfypilot/agent/domain/react/ReactExecutor.java:82-180 | tool rounds at every remaining index satisfy the recursive runaway condition |
| ReactLoop.CapStep | src/main/java/org/joker/comfypilot/agent/domain/react/ReactExecutor.java:170-177 | one more tool round in front of a capped run adds one model call and keeps the final cap error |
| ReactLoop.CapReached | src/main/java/org/joker/comfypilot/agent/domain/react/ReactExecutor.java:82-88 | at the cap the loop only reports the error and touches neither the memory nor the model |
| ReactLoop.ToolRoundStep | src/main/java/org/joker/comfypilot/agent/domain/react/ReactExecutor.java:148-177 | a tool round appends the AI message and the results, then continues with the next index and AUTO |
| ReactLoop.RunawayLoop | src/main/java/org/joker/comfypilot/agent/domain/react/ReactExecutor.java:55-88 | a runaway model is stopped after exactly 10 model calls with the cap error last |
| ReactLoop.InterruptStops | src/main/java/org/joker/comfypilot/agent/domain/react/ReactExecutor.java:90-95 | an interrupt before a round ends the loop with "执行已被用户中断" and no model call |
| ReactLoop.AnswerEnds | src/main/java/org/joker/comfypilot/agent/domain/react/ReactExecutor.java:186-191 | a reply without tool calls is recorded and ends the loop after that one call |
| ReactLoop.ToolRoundRecordsResults | src/main/java/org/joker/comfypilot/agent/domain/react/ReactExecutor.java:150-162 | a tool round records the AI message followed by one result message per call, with matching ids |
| ReactLoop.Received | src/main/java/org/joker/comfypilot/agent/domain/react/ReactExecutor.java:251-262 | the loop reads the allowance, success flag, result and error exactly as the client sent them |
| ReactLoop.ClientAnswersReachModel | src/main/java/org/joker/comfypilot/agent/domain/react/ReactExecutor.java:305-315 | a client's denial reaches the model as "工具调用被拒绝"; an allowance reaches it as the result when successful and as "工具执行失败: " plus the error otherwise |
| SessionContext.StartExecution | src/main/java/org/joker/comfypilot/session/domain/context/WebSocketSessionContext.java:70-72 | startExecution succeeds exactly when no request is current, and then records the given request id; otherwise the context is unchanged |
| SessionContext.CompleteExecution | src/main/java/org/joker/comfypilot/session/domain/context/WebSocketSessionContext.java:77-83 | completeExecution succeeds exactly when the given id is the current one, and then clears both the current id and the agent execution context; a wrong id changes nothing |
| SessionContext.StartThenComplete | src/main/java/org/joker/comfypilot/session/domain/context/WebSocketSessionContext.java:70-83 | from idle, start(r) succeeds, a second start(r) is refused, complete(r) succeeds and returns the context to idle |
| SessionContext.OtherRequestExcluded | src/main/java/org/joker/comfypilot/session/domain/context/WebSocketSessionContext.java:70-83 | while one request runs, another request id can neither start nor complete, and neither call changes the context |
| SessionContext.ErrorMessage | src/main/java/org/joker/comfypilot/session/domain/context/WebSocketSessionContext.java:111-121 | sendErrorMessage builds an AGENT_PROMPT message carrying this session's code, the given request id and ERROR prompt data with the error text |
| SessionManager.NewContext | src/main/java/org/joker/comfypilot/session/infrastructure/websocket/WebSocketSessionManager.java:35-43 | a freshly added connection's context is idle, has no agent execution context and carries the session code |
| SessionManager.AddSession | src/main/java/org/joker/comfypilot/session/infrastructure/websocket/WebSocketSessionManager.java:34-48 | addSession installs a fresh context and an empty callback queue under the connection id, replacing any earlier ones, and touches no other connection and runs no callback |
| SessionManager.GetContext | src/main/java/org/joker/comfypilot/session/infrastructure/websocket/WebSocketSessionManager.java:53-55 | getContext finds a context exactly for a registered connection id |
| SessionManager.RemoveSession | src/main/java/org/joker/comfypilot/session/infrastructure/websocket/WebSocketSessionManager.java:60-73 | removeSession drops both the context and the queue, and runs the queued callbacks in the order they were added |
| SessionManager.AddRemovedCallback | src/main/java/org/joker/comfypilot/session/infrastructure/websocket/WebSocketSessionManager.java:78-99 | a null id or callback is ignored; for an unknown connection (or one without a queue) the callback runs at once; otherwise it is queued at the end of that connection's queue |
| SessionManager.OperationsKeepConsistent | src/main/java/org/joker/comfypilot/session/infrastructure/websocket/WebSocketSessionManager.java:27-29 | addSession, removeSession and addRemovedCallback keep the sessions and the callback queues keyed by the same connection ids |
| SessionManager.DeferredUntilRemoval | src/main/java/org/joker/comfypilot/session/infrastructure/websocket/WebSocketSessionManager.java:60-99 | callbacks registered on a live connection run only at removal, in registration order, and a second removal runs nothing more |
| SessionManager.UnknownRunsAtOnce | src/main/java/org/joker/comfypilot/session/infrastructure/websocket/WebSocketSessionManager.java:82-85 | a callback for an unknown connection runs immediately and is not run again by a later removal |
| SessionManager.ReAddDropsPending | src/main/java/org/joker/comfypilot/session/infrastructure/websocket/WebSocketSessionManager.java:45 | re-adding a live connection replaces its queue, so callbacks queued before are never run |
| SkillsXml.EscapeXml | src/main/java/org/joker/comfypilot/common/tool/skills/SkillsTools.java:290-293 | a null text escapes to the empty string |
| SkillsXml.PassesConcat | src/main/java/org/joker/comfypilot/common/tool/skills/SkillsTools.java:294-298 | the five chained replace passes distribute over concatenation |
| SkillsXml.PassesChar | src/main/java/org/joker/comfypilot/common/tool/skills/SkillsTools.java:294-298 | on one char the five passes give its entity: &, <, >, quote and apostrophe become &amp; &lt; &gt; &quot; &apos; and every other char is kept |
| SkillsXml.LaterPassesKeep | src/main/java/org/joker/comfypilot/common/tool/skills/SkillsTools.java:295-298 | an entity already produced is not touched by the later passes, because it holds none of their chars |
| SkillsXml.PassesAfterLt | src/main/java/org/joker/comfypilot/common/tool/skills/SkillsTools.java:296-298 | the passes after the ampersand and less-than ones turn a single char into its entity |
| SkillsXml.EscapeIsCharwise | src/main/java/org/joker/comfypilot/common/tool/skills/SkillsTools.java:290-299 | escapeXml equals escaping each char on its own: the ampersand pass first means no entity is escaped twice |
| SkillsXml.UnescapeHead | src/main/java/org/joker/comfypilot/common/tool/skills/SkillsTools.java:294-298 | decoding reads one escaped char back off the front of any text |
| SkillsXml.UnescapeAmp | src/main/java/org/joker/comfypilot/common/tool/skills/SkillsTools.java:294 | "&amp;" decodes to the ampersand |
| SkillsXml.UnescapeLt | src/main/java/org/joker/comfypilot/common/tool/skills/SkillsTools.java:295 | "&lt;" decodes to the less-than sign |
| SkillsXml.UnescapeGt | src/main/java/org/joker/comfypilot/common/tool/skills/SkillsTools.java:296 | "&gt;" decodes to the greater-than sign |
| SkillsXml.UnescapeQuot | src/main/java/org/joker/comfypilot/common/tool/skills/SkillsTools.java:297 | "&quot;" decodes to the double quote |
| SkillsXml.UnescapeApos | src/main/java/org/joker/comfypilot/common/tool/skills/SkillsTools.java:298 | "&apos;" decodes to the apostrophe |
| SkillsXml.UnescapePlain | src/main/java/org/joker/comfypilot/common/tool/skills/SkillsTools.java:294-298 | a char other than the ampersand decodes to itself |
| SkillsXml.UnescapeCharwise | src/main/java/org/joker/comfypilot/common/tool/skills/SkillsTools.java:290-299 | decoding the per-char escape recovers the text |
| SkillsXml.NoMarkupCharwise | src/main/java/org/joker/comfypilot/common/tool/skills/SkillsTools.java:294-298 | escaped text holds no <, >, double quote or apostrophe |
| SkillsXml.EscapeRoundTrip | src/main/java/org/joker/comfypilot/common/tool/skills/SkillsTools.java:290-299 | escapeXml loses nothing and its output cannot close an attribute or an element |
| SkillsXml.BuildSkillsXml | src/main/java/org/joker/comfypilot/common/tool/skills/SkillsTools.java:247-261 | the "No skills available." element is produced exactly for an empty skill list |
| SkillsXml.Preorder | src/main/java/org/joker/comfypilot/common/tool/skills/SkillsTools.java:270-282 | the pre-order listing of a forest holds at least its roots |
| SkillsXml.LinesAppend | src/main/java/org/joker/comfypilot/common/tool/skills/SkillsTools.java:255-257 | the lines of two lists in a row are the two lists' lines in a row |
| SkillsXml.AppendSkill | src/main/java/org/joker/comfypilot/common/tool/skills/SkillsTools.java:270-282 | a skill's output starts with its own element, and is only that element when not recursive or without children |
| SkillsXml.FlatListsEachSkill | src/main/java/org/joker/comfypilot/common/tool/skills/SkillsTools.java:270-282 | without recursion each listed skill gives exactly its own element, in order |
| SkillsXml.RecursiveIsPreorder | src/main/java/org/joker/comfypilot/common/tool/skills/SkillsTools.java:270-282 | with recursion the elements are those of the pre-order walk of the skill tree: each skill, then its children's subtrees |
| SkillsXml.RecursiveEqualsFlatPreorder | src/main/java/org/joker/comfypilot/common/tool/skills/SkillsTools.java:247-282 | the recursive document equals the flat document of the pre-order listing |
| SkillsXml.GetSkillsInfo | src/main/java/org/joker/comfypilot/common/tool/skills/SkillsTools.java:42-60 | a null or blank name lists the root skills; an unknown trimmed name gives the error element with the name as given; a known one lists that skill's direct children |
| SkillsXml.GetAllSkillsInfo | src/main/java/org/joker/comfypilot/common/tool/skills/SkillsTools.java:69-87 | a null or blank name lists every skill in pre-order; an unknown trimmed name gives the error element; a known one lists that skill followed by all its descendants in pre-order |
| SkillsXml.PaddingIgnored | src/main/java/org/joker/comfypilot/common/tool/skills/SkillsTools.java:47-55 | surrounding blanks do not change the skill found, but the error element echoes the name with its padding |
| StatusUpdates.NormalizePhase | src/main/java/org/joker/comfypilot/agent/infrastructure/tool/StatusUpdateTool.java:175-187 | a null or blank phase becomes "执行中"; an English or Chinese alias of the four phases, in any ASCII case, becomes its Chinese name; any other phase is kept as given; the result is never empty |
| StatusUpdates.NormalizeIdempotent | src/main/java/org/joker/comfypilot/agent/infrastructure/tool/StatusUpdateTool.java:175-187 | normalising the Chinese name an alias produced gives the same name again |
| StatusUpdates.PhaseNameFixed | src/main/java/org/joker/comfypilot/agent/infrastructure/tool/StatusUpdateTool.java:181-184 | the four Chinese phase names are unchanged by lower-casing and trimming |
| StatusUpdates.AliasesIgnoreCase | src/main/java/org/joker/comfypilot/agent/infrastructure/tool/StatusUpdateTool.java:180 | two phases equal up to ASCII case that name an alias normalise alike |
| StatusUpdates.Truncate | src/main/java/org/joker/comfypilot/agent/infrastructure/tool/StatusUpdateTool.java:192-197 | a message within the limit is kept; a longer one keeps its first maxLength chars followed by "..." |
| StatusUpdates.Render | src/main/java/org/joker/comfypilot/agent/infrastructure/tool/StatusUpdateTool.java:61-66 | an update renders as its time in brackets, then its phase, then the message at the end, with six chars of punctuation in all |
| StatusUpdates.RenderKeepsMessage | src/main/java/org/joker/comfypilot/agent/infrastructure/tool/StatusUpdateTool.java:61-66 | two updates with the same time and phase render alike exactly when their messages are equal |
| StatusUpdates.Push | src/main/java/org/joker/comfypilot/agent/infrastructure/tool/StatusUpdateTool.java:100-105 | the new update is appended last, and the oldest entry is dropped exactly when the list grows past 100, so a list within the cap stays within it |
| StatusUpdates.RecordStatus | src/main/java/org/joker/comfypilot/agent/infrastructure/tool/StatusUpdateTool.java:80-118 | without an agent execution context it fails with "找不到当前工具执行上下文", and only then; with one, a null or blank message is refused with "错误: 状态更新消息不能为空" and the history is unchanged; otherwise the trimmed message is recorded under the normalised phase and the acknowledgement shows the phase and the untrimmed message cut at 50 chars |
| StatusUpdates.HistoryStaysCapped | src/main/java/org/joker/comfypilot/agent/infrastructure/tool/StatusUpdateTool.java:99-105 | the stored history never exceeds 100 entries and its last entry is the message just recorded, trimmed, with its time |
| StatusUpdates.FullHistoryDropsOldest | src/main/java/org/joker/comfypilot/agent/infrastructure/tool/StatusUpdateTool.java:103-105 | recording into a full history drops exactly its oldest entry |
| StatusUpdates.ClampLimit | src/main/java/org/joker/comfypilot/agent/infrastructure/tool/StatusUpdateTool.java:141 | the limit is clamped into 1..50, and a limit already in range is kept |
| StatusUpdates.Shown | src/main/java/org/joker/comfypilot/agent/infrastructure/tool/StatusUpdateTool.java:142-149 | the entries shown are the newest min(size, clamped limit) entries, in order |
| StatusUpdates.GetStatusHistory | src/main/java/org/joker/comfypilot/agent/infrastructure/tool/StatusUpdateTool.java:127-139 | without an agent execution context it fails with "找不到当前工具执行上下文", and only then; with one, the "当前会话没有状态更新历史" text is returned exactly when the history is empty |
| StatusUpdates.NewestShownLast | src/main/java/org/joker/comfypilot/agent/infrastructure/tool/StatusUpdateTool.java:99-149 | after recording, the history view ends with the update just recorded, whatever the limit |
| TodoLists.StatusOf | src/main/java/org/joker/comfypilot/agent/infrastructure/tool/TodoWriteTool.java:113 | a given status is kept, and a missing or JSON-null status reads as "pending" (the corrected default) |
| TodoLists.StatusAsWritten | src/main/java/org/joker/comfypilot/agent/infrastructure/tool/TodoWriteTool.java:113 | as written, getOrDefault gives null exactly for a JSON-null status, and otherwise the same status as the corrected default |
| TodoLists.ReadItemsAsWritten | src/main/java/org/joker/comfypilot/agent/infrastructure/tool/TodoWriteTool.java:109-120 | as written, the loop keeps at most one item per input |
| TodoLists.AsWrittenDiffersOnlyInStatus | src/main/java/org/joker/comfypilot/agent/infrastructure/tool/TodoWriteTool.java:109-120 | the loop as written keeps the same items as the corrected one, with the same content and form, and a status that is either null or the corrected one |
| TodoLists.AsWrittenAgreesWithoutNull | src/main/java/org/joker/comfypilot/agent/infrastructure/tool/TodoWriteTool.java:109-120 | without a JSON-null status among the inputs, the loop as written gives exactly the corrected items |
| TodoLists.ReadItems | src/main/java/org/joker/comfypilot/agent/infrastructure/tool/TodoWriteTool.java:109-120 | the parsing loop keeps at most one item per input and every kept item has a status |
| TodoLists.ReadEntry | src/main/java/org/joker/comfypilot/agent/infrastructure/tool/TodoWriteTool.java:110-120 | an input is dropped exactly when its content is null or blank, and otherwise yields one item with a status |
| TodoLists.ReadItemsHaveContent | src/main/java/org/joker/comfypilot/agent/infrastructure/tool/TodoWriteTool.java:115-117 | every item kept has non-blank content |
| TodoLists.ReadItemsAppend | src/main/java/org/joker/comfypilot/agent/infrastructure/tool/TodoWriteTool.java:110-120 | reading two input lists in a row gives the two readings in a row, in order |
| TodoLists.ReadOne | src/main/java/org/joker/comfypilot/agent/infrastructure/tool/TodoWriteTool.java:110-120 | a single input is skipped when blank, and otherwise becomes an item with its content, active form and status as given or defaulted |
| TodoLists.Stored | src/main/java/org/joker/comfypilot/agent/infrastructure/tool/TodoWriteTool.java:122-130 | merge appends the new items after the existing ones, which stay as they were; replace stores exactly the new items |
| TodoLists.CountStatus | src/main/java/org/joker/comfypilot/agent/infrastructure/tool/TodoWriteTool.java:204-208 | a status count never exceeds the list size |
| TodoLists.CountOther | src/main/java/org/joker/comfypilot/agent/infrastructure/tool/TodoWriteTool.java:204-208 | the pending count never exceeds the list size |
| TodoLists.CountsAddUp | src/main/java/org/joker/comfypilot/agent/infrastructure/tool/TodoWriteTool.java:190-212 | pending, in-progress and completed counts add up to the number of items |
| TodoLists.AllStatusesAppend | src/main/java/org/joker/comfypilot/agent/infrastructure/tool/TodoWriteTool.java:125 | appending two lists whose items all have a status keeps that property |
| TodoLists.ItemLinesAppend | src/main/java/org/joker/comfypilot/agent/infrastructure/tool/TodoWriteTool.java:194-209 | the numbered lines of a concatenation are the first part's lines followed by the second part's, numbered on from where the first left off |
| TodoLists.FormatTodoList | src/main/java/org/joker/comfypilot/agent/infrastructure/tool/TodoWriteTool.java:180-215 | listing fails (a NullPointerException on the status switch) exactly when some item has no status; an empty list reads "当前没有待办事项" |
| TodoLists.CastEntries | src/main/java/org/joker/comfypilot/agent/infrastructure/tool/TodoWriteTool.java:110-113 | the loop reads the elements in order and the first one that is not a map of strings throws with its message; when none throws, every element's three fields are read |
| TodoLists.SaveAndList | src/main/java/org/joker/comfypilot/agent/infrastructure/tool/TodoWriteTool.java:122-132 | a failed save writes nothing and replies "错误: 保存待办事项失败"; otherwise the merged or replacing list is written and the reply is its listing, or "错误: " and the NullPointerException message when an item has a null status |
| TodoLists.TodoWrite | src/main/java/org/joker/comfypilot/agent/infrastructure/tool/TodoWriteTool.java:96-141 | no execution context throws "找不到当前工具执行上下文"; invalid JSON replies "错误: JSON 格式不正确 - " and the message; a JSON null list or an unreadable element replies "错误: " and the exception message; none of these writes anything, and whenever nothing is written the reply starts with "错误: "; otherwise it saves and lists as SaveAndList does |
| TodoLists.TodoWriteAsWritten | src/main/java/org/joker/comfypilot/agent/infrastructure/tool/TodoWriteTool.java:96-141 | as written, the same call saves the items with a JSON-null status kept as null |
| TodoLists.WriteRepliesWithListing | src/main/java/org/joker/comfypilot/agent/infrastructure/tool/TodoWriteTool.java:122-132 | with the corrected default, a successful write onto a list whose items all have a status saves the merged or replacing list and replies with exactly its listing |
| TodoLists.ErrorsWriteNothing | src/main/java/org/joker/comfypilot/agent/infrastructure/tool/TodoWriteTool.java:133-139 | invalid or null JSON, an unreadable element, or a failed save writes nothing and replies with an error |
| TodoLists.NullStatusWriteReportsError | src/main/java/org/joker/comfypilot/agent/infrastructure/tool/TodoWriteTool.java:113 | as written, a todo with "status": null is saved and the caller is told "错误: " with the NullPointerException message; corrected, the same call saves it as pending and replies with its listing |
| TodoLists.MergeKeepsNumbering | src/main/java/org/joker/comfypilot/agent/infrastructure/tool/TodoWriteTool.java:122-126 | after a merge the existing items keep their numbers and the new ones are numbered after them |
| TodoLists.MergedLines | src/main/java/org/joker/comfypilot/agent/infrastructure/tool/TodoWriteTool.java:194-209 | the lines of existing+added are the existing lines followed by the added lines numbered from the existing count |
| TodoLists.NullStatusBreaksListing | src/main/java/org/joker/comfypilot/agent/infrastructure/tool/TodoWriteTool.java:113 | as written, a todo with "status": null is stored with a null status, its listing fails, and every later merge keeps failing |
| TodoLists.NullStatusReadsPending | src/main/java/org/joker/comfypilot/agent/infrastructure/tool/TodoWriteTool.java:113 | with the corrected default, the same todo is stored as pending and listed |
| TokenStore.PrefixesKeepTypesApart | src/main/java/org/joker/comfypilot/auth/infrastructure/redis/repository/TokenRedisRepository.java:26-27 | the "auth:access_token:" and "auth:refresh_token:" prefixes keep an access key and a refresh key apart for any tokens, and keys of one kind differ exactly when the tokens do |
| TokenStore.AddToUserTokens | src/main/java/org/joker/comfypilot/auth/infrastructure/redis/repository/TokenRedisRepository.java:114-117 | adding to the user's set leaves the token records alone and puts the token in the set keyed by the user id |
| TokenStore.SaveToken | src/main/java/org/joker/comfypilot/auth/infrastructure/redis/repository/TokenRedisRepository.java:36-49 | saving stores the record under its kind's key with that kind's TTL (86400 s or 604800 s), leaves other keys alone and adds the token to the user's set |
| TokenStore.GetToken | src/main/java/org/joker/comfypilot/auth/infrastructure/redis/repository/TokenRedisRepository.java:54-65 | a token is found exactly when its key of that kind is present |
| TokenStore.SaveThenGet | src/main/java/org/joker/comfypilot/auth/infrastructure/redis/repository/TokenRedisRepository.java:36-65 | a saved token is read back unchanged through the getter of the same kind |
| TokenStore.RevokeToken | src/main/java/org/joker/comfypilot/auth/infrastructure/redis/repository/TokenRedisRepository.java:70-80 | revoking an absent token changes nothing; otherwise the record is re-saved marked revoked at the given time with a fresh TTL, and every other key keeps its value |
| TokenStore.RevokeKeepsIdentity | src/main/java/org/joker/comfypilot/auth/infrastructure/redis/repository/TokenRedisRepository.java:74-78 | revocation keeps the token, the user id and the other fields of the record |
| TokenStore.RevokeEach | src/main/java/org/joker/comfypilot/auth/infrastructure/redis/repository/TokenRedisRepository.java:130-136 | the loop over a user's tokens revokes both kinds of every listed token that exists, keeps earlier revocations, and leaves tokens not listed untouched |
| TokenStore.RevokeAll | src/main/java/org/joker/comfypilot/auth/infrastructure/redis/repository/TokenRedisRepository.java:122-142 | revokeAllUserTokens revokes every stored access and refresh token of the user's set, then deletes that set and no other |
| ToolCallWait.Key | src/main/java/org/joker/comfypilot/agent/domain/toolcall/ToolCallWaitManager.java:98-100 | the key is the call id, a colon, then the tool name, with "null" for a missing part: the colon sits right after the id |
| ToolCallWait.KeyInjective | src/main/java/org/joker/comfypilot/agent/domain/toolcall/ToolCallWaitManager.java:98-100 | when neither call id contains a colon, equal keys mean equal call ids and equal tool names |
| ToolCallWait.FirstColon | src/main/java/org/joker/comfypilot/agent/domain/toolcall/ToolCallWaitManager.java:98-100 | for a colon-free call id, the first colon of the key is at the id's length, so the id can be read back |
| ToolCallWait.KeyCollides | src/main/java/org/joker/comfypilot/agent/domain/toolcall/ToolCallWaitManager.java:98-100 | without that restriction keys collide: ("a:b","c") and ("a","b:c") share the key "a:b:c" |
| ToolCallWait.CreateWait | src/main/java/org/joker/comfypilot/agent/domain/toolcall/ToolCallWaitManager.java:39-42 | createWait registers the new future under the key, overwriting an earlier one, and leaves every other key as it was |
| ToolCallWait.CompleteWait | src/main/java/org/joker/comfypilot/agent/domain/toolcall/ToolCallWaitManager.java:65-76 | completeWait returns true exactly when the key was waiting; it then wakes that future and removes only that key; otherwise nothing changes |
| ToolCallWait.CancelWait | src/main/java/org/joker/comfypilot/agent/domain/toolcall/ToolCallWaitManager.java:85-93 | cancelWait removes the key and cancels its future when present, and is a no-op on an absent key |
| ToolCallWait.CompleteOnce | src/main/java/org/joker/comfypilot/agent/domain/toolcall/ToolCallWaitManager.java:65-76 | after createWait, the first completeWait succeeds and wakes that future and a second one on the same key returns false |
| ToolCallWait.CancelThenComplete | src/main/java/org/joker/comfypilot/agent/domain/toolcall/ToolCallWaitManager.java:85-93 | a completeWait after cancelWait on the same key returns false |
| ToolCallWait.OverwriteOrphans | src/main/java/org/joker/comfypilot/agent/domain/toolcall/ToolCallWaitManager.java:39-42 | creating a wait twice under one key leaves only the second future to be woken |
| VersionCompare.Difference | src/main/java/org/joker/comfypilot/agent/infrastructure/registry/AgentRegistryImpl.java:171 | int subtraction equals the true difference whenever that fits in 32 bits, and always when wrap-around is not modelled |
| VersionCompare.Part | src/main/java/org/joker/comfypilot/agent/infrastructure/registry/AgentRegistryImpl.java:175-183 | a component past the end of the version reads as 0, and any other is Integer.parseInt of its text |
| VersionCompare.RegistryCompareParts | src/main/java/org/joker/comfypilot/agent/infrastructure/registry/AgentRegistryImpl.java:168 | a version that splits into no parts fails with the index-out-of-bounds message for index 0 |
| VersionCompare.RegistryCompare | src/main/java/org/joker/comfypilot/agent/infrastructure/registry/AgentRegistryImpl.java:159-162 | a null version fails with "版本号不能为空" |
| VersionCompare.RegistryIsLexicographic | src/main/java/org/joker/comfypilot/agent/infrastructure/registry/AgentRegistryImpl.java:157-185 | on three well-formed components the sign of the comparison is the lexicographic order of major, minor and patch |
| VersionCompare.RegistryIgnoresExtraParts | src/main/java/org/joker/comfypilot/agent/infrastructure/registry/AgentRegistryImpl.java:164-185 | components after the patch number never affect the comparison |
| VersionCompare.MissingPartsAreZero | src/main/java/org/joker/comfypilot/agent/infrastructure/registry/AgentRegistryImpl.java:175-183 | a missing minor or patch number compares as 0 |
| VersionCompare.RegistryPartsAntisymmetric | src/main/java/org/joker/comfypilot/agent/infrastructure/registry/AgentRegistryImpl.java:164-185 | without wrap-around, swapping the versions negates the result and keeps success and failure |
| VersionCompare.RegistryAntisymmetric | src/main/java/org/joker/comfypilot/agent/infrastructure/registry/AgentRegistryImpl.java:159-185 | the corrected comparison is antisymmetric, null checks included |
| VersionCompare.DigitsValueSnoc | src/main/java/org/joker/comfypilot/agent/infrastructure/registry/AgentRegistryImpl.java:168 | appending a digit multiplies the decimal value by ten and adds the digit |
| VersionCompare.ParseExtremes | src/main/java/org/joker/comfypilot/agent/infrastructure/registry/AgentRegistryImpl.java:168 | Integer.parseInt reads "0" as 0 and "-2147483648" as the least int |
| VersionCompare.ParseUnsigned | src/main/java/org/joker/comfypilot/agent/infrastructure/registry/AgentRegistryImpl.java:168 | Integer.parseInt reads an in-range digit string as its decimal value |
| VersionCompare.ParseNegative | src/main/java/org/joker/comfypilot/agent/infrastructure/registry/AgentRegistryImpl.java:168 | Integer.parseInt reads a minus sign and in-range digits as the negated value |
| VersionCompare.RegistryWrapCounterexample | src/main/java/org/joker/comfypilot/agent/infrastructure/registry/AgentRegistryImpl.java:171 | with 32-bit subtraction, "0" against "-2147483648" and the reverse both give the least int, so the sign is wrong one way round |
| VersionCompare.RegistryWrapHarmlessWhenNonNegative | src/main/java/org/joker/comfypilot/agent/infrastructure/registry/AgentRegistryImpl.java:168-184 | for non-negative components the wrapped and the true differences give the same result |
| VersionCompare.SyncDecision | src/main/java/org/joker/comfypilot/agent/infrastructure/registry/AgentRegistryImpl.java:92-117 | an agent with no stored config is created, and a stored one is updated exactly when the code version compares greater |
| VersionCompare.SyncIsIdempotent | src/main/java/org/joker/comfypilot/agent/infrastructure/registry/AgentRegistryImpl.java:106-115 | an agent whose stored version equals its code version keeps the stored config |
| VersionCompare.RegistryWrapAgrees | src/main/java/org/joker/comfypilot/agent/infrastructure/registry/AgentRegistryImpl.java:164-185 | the 32-bit and the exact comparison fail on the same inputs with the same error, and the 32-bit result is the exact one wrapped to 32 bits |
| VersionCompare.SyncDecisionAsWritten | src/main/java/org/joker/comfypilot/agent/infrastructure/registry/AgentRegistryImpl.java:92-117 | as written: no stored config means create, and a stored one is updated exactly when the wrapping comparison is positive |
| VersionCompare.SyncAsWrittenAgrees | src/main/java/org/joker/comfypilot/agent/infrastructure/registry/AgentRegistryImpl.java:106 | the decision as written fails exactly when the corrected one does, and equals it whenever the exact component difference fits in an int |
| VersionCompare.SyncAsWrittenSkipsUpdate | src/main/java/org/joker/comfypilot/agent/infrastructure/registry/AgentRegistryImpl.java:106 | code version "0" over a stored "-2147483648" keeps the config as written and updates it when corrected |
| VersionCompare.PythonCompare | src/main/java/org/joker/comfypilot/script/detector/PythonRuntimeDetector.java:214-216 | a null version fails with a null-pointer error |
| VersionCompare.PythonIsPaddedLexicographic | src/main/java/org/joker/comfypilot/script/detector/PythonRuntimeDetector.java:214-230 | on well-formed versions the comparison succeeds, is zero exactly when all zero-padded components agree, and otherwise is the difference at the first disagreement |
| VersionCompare.PythonZeroPadding | src/main/java/org/joker/comfypilot/script/detector/PythonRuntimeDetector.java:218-222 | a trailing ".0" does not change a version |
| VersionCompare.PythonAntisymmetric | src/main/java/org/joker/comfypilot/script/detector/PythonRuntimeDetector.java:214-230 | without wrap-around, swapping the versions negates the result and keeps success and failure |
| VersionCompare.RequirementReflexive | src/main/java/org/joker/comfypilot/script/detector/PythonRuntimeDetector.java:201-208 | a well-formed version meets itself as a requirement, and a failing comparison (a null version) meets nothing |
| VersionCompare.PythonWrapCounterexample | src/main/java/org/joker/comfypilot/script/detector/PythonRuntimeDetector.java:225 | with 32-bit subtraction, "0" against "-2147483648" gives a negative result although "0" is the greater |
| VersionCompare.PythonWrapAgrees | src/main/java/org/joker/comfypilot/script/detector/PythonRuntimeDetector.java:214-230 | the 32-bit and the exact comparison loop fail alike, and the 32-bit result is the exact one wrapped to 32 bits |
| VersionCompare.RequirementAsWrittenAgrees | src/main/java/org/joker/comfypilot/script/detector/PythonRuntimeDetector.java:201-208 | the requirement check as written accepts exactly what the corrected one accepts whenever the exact difference fits in an int |
| VersionCompare.RequirementAsWrittenRefuses | src/main/java/org/joker/comfypilot/script/detector/PythonRuntimeDetector.java:203 | version "0" against a required "-2147483648" is refused as written and accepted when corrected |
| VersionCompare.MeetsRequirement | src/main/java/org/joker/comfypilot/script/detector/PythonRuntimeDetector.java:201-208 | a null actual or required version never meets the requirement, the comparison failure being caught as false |
| VersionCompare.MeetsRequirementAsWritten | src/main/java/org/joker/comfypilot/script/detector/PythonRuntimeDetector.java:201-208 | with 32-bit subtraction too, a null actual or required version never meets the requirement |
| WebSocketProtocol.ParseType | src/main/java/org/joker/comfypilot/session/infrastructure/websocket/ChatWebSocketHandler.java:125 | valueOf returns the kind whose name is exactly the text, and fails only when no kind has that name |
| WebSocketProtocol.ParseTypeName | docs/websocket.ts:13-27 | every kind's wire name reads back as that kind |
| WebSocketProtocol.KindsPartitioned | docs/websocket.ts:13-27 | the ten kinds split into five distinct client-to-server kinds and five distinct server-to-client kinds |
| WebSocketProtocol.DefaultMessage | docs/websocket.ts:302-310 | every prompt kind has a non-empty default text |
| WebSocketProtocol.DefaultMessagesDistinct | docs/websocket.ts:302-310 | the default map covers all seven prompt kinds and no two kinds share a text |
| WebSocketProtocol.MintRequestId | docs/websocket.ts:193 | a minted request id is a non-empty string of decimal digits |
| WebSocketProtocol.UserMessageOf | docs/websocket.ts:185-198 | a user message carries a freshly minted id, the timestamp, the session, the text and the workflow with the tool schemas |
| WebSocketProtocol.UserOrderOf | docs/websocket.ts:203-216 | a user command carries a minted id and the command text, with no tool schemas |
| WebSocketProtocol.ToolCallAllow | docs/websocket.ts:221-246 | an allowance echoes the request id and carries isAllow true with the result, success flag and error |
| WebSocketProtocol.ToolCallDeny | docs/websocket.ts:251-270 | a denial echoes the request id and carries isAllow false and no result, success flag or error |
| WebSocketProtocol.InterruptOf | docs/websocket.ts:275-282 | an interrupt names the request to stop and carries neither text nor data |
| WebSocketProtocol.PingOf | docs/websocket.ts:287-294 | a ping carries a minted id and the timestamp and nothing else |
| WebSocketProtocol.BuiltKindsAreClientKinds | docs/websocket.ts:185-294 | every message the client builds names a client-to-server kind the server can read back |
| Wget.OrFallback | src/main/java/org/joker/comfypilot/common/util/WgetUtil.java:219-222 | an empty name is replaced by "downloaded_file_" and the clock reading; any other name is kept |
| Wget.BeforeQuery | src/main/java/org/joker/comfypilot/common/util/WgetUtil.java:213-217 | cutting at the first '?' leaves a prefix with no '?', and a text without '?' is kept whole |
| Wget.AfterLastSlash | src/main/java/org/joker/comfypilot/common/util/WgetUtil.java:211 | the text after the last '/' holds no '/', and a text without '/' is kept whole |
| Wget.ExtractFileNameAsWritten | src/main/java/org/joker/comfypilot/common/util/WgetUtil.java:210-225 | as written, a null URL throws; otherwise the name is non-empty and holds no '?' |
| Wget.AsWrittenTakesQuerySegment | src/main/java/org/joker/comfypilot/common/util/WgetUtil.java:211 | as written, a '/' inside the query string moves the cut: the name becomes the query's last segment |
| Wget.ExtractFileName | src/main/java/org/joker/comfypilot/common/util/WgetUtil.java:210-225 | with the query removed first, a null URL throws and otherwise the name is non-empty and holds no '?' |
| Wget.ExtractFindsLastSegment | src/main/java/org/joker/comfypilot/common/util/WgetUtil.java:210-225 | with the query removed first, the last path segment is found whatever the query holds |
| Wget.OrFallbackKeeps | src/main/java/org/joker/comfypilot/common/util/WgetUtil.java:219-222 | the fallback name is non-empty and holds no '?' |
| Wget.FileNameFor | src/main/java/org/joker/comfypilot/common/util/WgetUtil.java:145-147 | a configured non-empty file name wins; otherwise the name comes from the URL |
| Wget.FileNameForAsWritten | src/main/java/org/joker/comfypilot/common/util/WgetUtil.java:144-147 | as written: a configured non-empty file name wins; otherwise the name comes from the URL by the extractor as written |
| Wget.FileNameAgreesWithoutQuery | src/main/java/org/joker/comfypilot/common/util/WgetUtil.java:146 | for a URL without '?' the name choice as written and the corrected one give the same result |
| Wget.FileNameAsWrittenDiffers | src/main/java/org/joker/comfypilot/common/util/WgetUtil.java:146 | with no configured name and a '/' in the query, the program as written saves under the query's last segment and the corrected choice under the path's last segment |
| Wget.NewBuilder | src/main/java/org/joker/comfypilot/common/util/WgetUtil.java:291-298 | a fresh builder has timeouts 30 and 5, follows redirects, has an empty header map and no URL, directory or file name |
| Wget.AddHeader | src/main/java/org/joker/comfypilot/common/util/WgetUtil.java:330-338 | addHeader puts the pair into the header map, and throws when headers(null) removed the map |
| Wget.Build | src/main/java/org/joker/comfypilot/common/util/WgetUtil.java:345-353 | build fails with "URL 不能为空" for a null or empty URL, then with "目标目录不能为空" for a null or empty directory, and otherwise copies every setting unchanged |
| Wget.DefaultsBuild | src/main/java/org/joker/comfypilot/common/util/WgetUtil.java:286-353 | a builder given only a URL and a directory builds the default configuration |
| WorkflowEntity.Unsigned | src/main/java/org/joker/comfypilot/workflow/domain/entity/Workflow.java:140 | masking with 0xff gives the byte's unsigned value, congruent to it modulo 256 |
| WorkflowEntity.ToHexString | src/main/java/org/joker/comfypilot/workflow/domain/entity/Workflow.java:140 | Integer.toHexString of a byte value has one or two digits |
| WorkflowEntity.Hex | src/main/java/org/joker/comfypilot/workflow/domain/entity/Workflow.java:138-146 | the hash text has two lower-case hex digits per digest byte |
| WorkflowEntity.ByteHexNibbles | src/main/java/org/joker/comfypilot/workflow/domain/entity/Workflow.java:140-144 | each byte is written as its high nibble then its low nibble, zero-padded |
| WorkflowEntity.HexValue | src/main/java/org/joker/comfypilot/workflow/domain/entity/Workflow.java:140 | each hex digit stands for exactly one nibble |
| WorkflowEntity.Unhex | src/main/java/org/joker/comfypilot/workflow/domain/entity/Workflow.java:138-146 | reading hex text back gives one byte per digit pair |
| WorkflowEntity.HexDigitsDistinct | src/main/java/org/joker/comfypilot/workflow/domain/entity/Workflow.java:140 | distinct nibbles have distinct digits |
| WorkflowEntity.ByteRoundTrip | src/main/java/org/joker/comfypilot/workflow/domain/entity/Workflow.java:140-144 | the two digits of a byte read back as that byte |
| WorkflowEntity.HexRoundTrip | src/main/java/org/joker/comfypilot/workflow/domain/entity/Workflow.java:138-146 | the hex rendering of a digest is injective: it reads back as the digest |
| WorkflowEntity.ContentHash | src/main/java/org/joker/comfypilot/workflow/domain/entity/Workflow.java:131-150 | null or empty content has no hash; otherwise the hash is 64-digit-style hex text that encodes exactly the digest |
| WorkflowEntity.SaveContent | src/main/java/org/joker/comfypilot/workflow/domain/entity/Workflow.java:108-114 | saving fails exactly when the workflow is locked, and otherwise replaces the content together with its hash and nothing else |
| WorkflowEntity.Lock | src/main/java/org/joker/comfypilot/workflow/domain/entity/Workflow.java:157-164 | locking fails exactly when already locked, and otherwise records the holder and the time and keeps the content |
| WorkflowEntity.Unlock | src/main/java/org/joker/comfypilot/workflow/domain/entity/Workflow.java:169-173 | unlocking clears the lock, the holder and the time and keeps the content |
| WorkflowEntity.IsLockedBy | src/main/java/org/joker/comfypilot/workflow/domain/entity/Workflow.java:181-184 | a workflow is held by a user only when it is locked and the user id is non-null; then exactly when the holder equals the user |
| WorkflowEntity.LockGivesHolderEditing | src/main/java/org/joker/comfypilot/workflow/domain/entity/Workflow.java:157-195 | after locking only the holder can edit, saving is refused, and unlocking lets everyone edit again |
| WorkflowEntity.AnonymousLockBlocksEveryone | src/main/java/org/joker/comfypilot/workflow/domain/entity/Workflow.java:181-195 | a lock taken with a null user id lets nobody edit, since a null holder matches no one |
| WorkflowEntity.CanEdit | src/main/java/org/joker/comfypilot/workflow/domain/entity/Workflow.java:192-195 | an unlocked workflow can be edited by anyone; a locked one only by a non-null user id equal to the holder |
| WorkflowVersions.IsSameContent | src/main/java/org/joker/comfypilot/workflow/domain/entity/WorkflowVersion.java:98-113 | a null other version is never the same; sameness needs equal non-null contents; two present, different hashes rule it out |
| WorkflowVersions.IsSameContentSymmetric | src/main/java/org/joker/comfypilot/workflow/domain/entity/WorkflowVersion.java:98-113 | comparing two versions gives the same answer either way round |
| WorkflowVersions.ConsistentHashesCompareContents | src/main/java/org/joker/comfypilot/workflow/domain/entity/WorkflowVersion.java:98-113 | when each hash is computed from its content, two versions are the same exactly when their contents are equal and present |
| WorkflowVersions.MissingContentNeverSame | src/main/java/org/joker/comfypilot/workflow/domain/entity/WorkflowVersion.java:109-112 | a version without content is the same as no other version |
| WorkflowAgentSetup.Lookup | src/main/java/org/joker/comfypilot/agent/domain/agent/workflow/WorkflowAgent.java:560 | a session value is found only under a present key and is never a JSON null |
| WorkflowAgentSetup.Overrides | src/main/java/org/joker/comfypilot/agent/domain/agent/workflow/WorkflowAgent.java:560 | unboxing a definition's userOverride fails exactly when the flag is null |
| WorkflowAgentSetup.ApplyOverrides | src/main/java/org/joker/comfypilot/agent/domain/agent/workflow/WorkflowAgent.java:555-566 | the merge succeeds exactly when every definition has a userOverride flag, keeps every default key, and adds only keys some overridable definition allows with a non-null session value |
| WorkflowAgentSetup.RuntimeAgentConfig | src/main/java/org/joker/comfypilot/agent/domain/agent/workflow/WorkflowAgent.java:555-566 | getRuntimeAgentConfig fails exactly when some definition lacks its userOverride flag |
| WorkflowAgentSetup.UnpermittedKeysKeepDefault | src/main/java/org/joker/comfypilot/agent/domain/agent/workflow/WorkflowAgent.java:559-563 | a key no overridable definition permits keeps its default value, and is present exactly when it was a default |
| WorkflowAgentSetup.PermittedKeysTakeSession | src/main/java/org/joker/comfypilot/agent/domain/agent/workflow/WorkflowAgent.java:559-563 | a key an overridable definition permits takes the session's value |
| WorkflowAgentSetup.LimitOr | src/main/java/org/joker/comfypilot/agent/domain/agent/workflow/WorkflowAgent.java:198-199 | a missing limit takes its default and a present one is Integer.parseInt of its text |
| WorkflowAgentSetup.LimitReadsNumber | src/main/java/org/joker/comfypilot/agent/domain/agent/workflow/WorkflowAgent.java:198-199 | a 32-bit number in the model config is read back as itself |
| WorkflowAgentSetup.ContextLimits | src/main/java/org/joker/comfypilot/agent/domain/agent/workflow/WorkflowAgent.java:198-202 | without maxTokens and maxMessages entries the limits are 200000 tokens and 500 messages |
| WorkflowAgentSetup.FirstClash | src/main/java/org/joker/comfypilot/agent/domain/agent/workflow/WorkflowAgent.java:239-248 | a group clashes exactly when one of its tools has a client tool's name, and the reported name is such a tool |
| WorkflowAgentSetup.AssembleTools | src/main/java/org/joker/comfypilot/agent/domain/agent/workflow/WorkflowAgent.java:233-300 | on success the tool list is the client tools followed by every server group in order |
| WorkflowAgentSetup.AssembleFailsIffClash | src/main/java/org/joker/comfypilot/agent/domain/agent/workflow/WorkflowAgent.java:239-300 | assembly fails exactly when some server tool has a client tool's name |
| WorkflowAgentSetup.ClashNamed | src/main/java/org/joker/comfypilot/agent/domain/agent/workflow/WorkflowAgent.java:240-241 | a clash in the first group fails with "客户端工具" + name + "与服务内部工具重名" for the first clashing tool |
| WorkflowAgentSetup.CountKind | src/main/java/org/joker/comfypilot/agent/domain/agent/workflow/WorkflowAgent.java:330-353 | a per-kind count never exceeds the number of attachments |
| WorkflowAgentSetup.Bump | src/main/java/org/joker/comfypilot/agent/domain/agent/workflow/WorkflowAgent.java:335-350 | bumping a kind's counter adds one to it and leaves the other counters alone |
| WorkflowAgentSetup.AssignKeys | src/main/java/org/joker/comfypilot/agent/domain/agent/workflow/WorkflowAgent.java:330-353 | one key slot per attachment, and each final counter equals the number of attachments of its kind |
| WorkflowAgentSetup.KeyCountsEarlierOfKind | src/main/java/org/joker/comfypilot/agent/domain/agent/workflow/WorkflowAgent.java:335-350 | the i-th attachment's key is its kind's prefix followed by the number of earlier attachments of that kind; an unknown kind gets no key |
| WorkflowAgentSetup.KeysDistinctWithinKind | src/main/java/org/joker/comfypilot/agent/domain/agent/workflow/WorkflowAgent.java:335-350 | two attachments of the same kind never share a key |
| WorkflowAgentSetup.CountKindGrows | src/main/java/org/joker/comfypilot/agent/domain/agent/workflow/WorkflowAgent.java:335-350 | a later position has seen strictly more attachments of a kind present before it |
| WorkflowAgentSetup.Forwarded | src/main/java/org/joker/comfypilot/agent/domain/agent/workflow/WorkflowAgent.java:336-352 | only image, video, audio and PDF attachments are ever forwarded to the model |
| WorkflowLockService.LockKeyInjective | src/main/java/org/joker/comfypilot/workflow/application/service/impl/WorkflowLockServiceImpl.java:32-34 | "workflow:lock:" followed by the decimal id (or "null") gives different workflows different keys |
| WorkflowLockService.LockKey | src/main/java/org/joker/comfypilot/workflow/application/service/impl/WorkflowLockServiceImpl.java:32-34 | every lock key starts with "workflow:lock:" and has text after it |
| WorkflowLockService.GetLockInfo | src/main/java/org/joker/comfypilot/workflow/application/service/impl/WorkflowLockServiceImpl.java:93-107 | lock info is present exactly when the key holds a lock record; a missing key or a value of another type reads as empty |
| WorkflowLockService.LockWorkflow | src/main/java/org/joker/comfypilot/workflow/application/service/impl/WorkflowLockServiceImpl.java:37-63 | lock fails and changes nothing when the key already exists; otherwise it succeeds exactly when the store write succeeds, and then holds this workflow, message and time |
| WorkflowLockService.UnlockWorkflow | src/main/java/org/joker/comfypilot/workflow/application/service/impl/WorkflowLockServiceImpl.java:66-90 | unlock of an unlocked workflow returns false; it succeeds and deletes only that key exactly when the stored message id equals the caller's; a different id returns false with the lock intact; a lock record without a message id throws |
| WorkflowLockService.IsLockedByMessage | src/main/java/org/joker/comfypilot/workflow/application/service/impl/WorkflowLockServiceImpl.java:116-123 | isLockedByMessage is true only for a locked workflow, and agrees with whether unlock by that message would succeed, throwing in the same case |
| WorkflowLockService.ForceUnlock | src/main/java/org/joker/comfypilot/workflow/application/service/impl/WorkflowLockServiceImpl.java:126-130 | forceUnlock always leaves the workflow unlocked and every other key untouched |
| WorkflowLockService.LockThenUnlock | src/main/java/org/joker/comfypilot/workflow/application/service/impl/WorkflowLockServiceImpl.java:37-90 | on an unlocked workflow, lock(w,m) succeeds, isLockedByMessage(w,m) then holds, and unlock(w,m) restores the original store with w unlocked |
| WorkflowLockService.OtherMessageExcluded | src/main/java/org/joker/comfypilot/workflow/application/service/impl/WorkflowLockServiceImpl.java:41-44 | while one message holds the lock, another message can neither lock, unlock, nor pass isLockedByMessage |
| WorkflowLockService.ForeignValueBlocks | src/main/java/org/joker/comfypilot/workflow/application/service/impl/WorkflowLockServiceImpl.java:41-44 | a value of another type under the lock key still blocks lock and counts as locked, but cannot be unlocked by any message; only forceUnlock clears it |
| WorkflowLockService.LockIsLocal | src/main/java/org/joker/comfypilot/workflow/application/service/impl/WorkflowLockServiceImpl.java:37-63 | locking one workflow does not change whether, or by whom, any other workflow is locked |
| WorkflowLockService.IsLocked | src/main/java/org/joker/comfypilot/workflow/application/service/impl/WorkflowLockServiceImpl.java:110-113 | whenever lock info can be read the workflow counts as locked, and an unlocked workflow has no lock info |
| HandshakeAuth.FirstParam | src/main/java/org/joker/comfypilot/session/infrastructure/websocket/WebSocketAuthInterceptor.java:122-129 | no parameter is found exactly when none starts with the prefix; a found value is the remainder of a parameter that does |
| HandshakeAuth.FirstParamAt | src/main/java/org/joker/comfypilot/session/infrastructure/websocket/WebSocketAuthInterceptor.java:123-127 | the value found is the remainder of the first parameter with the prefix |
| HandshakeAuth.HandshakeToken | src/main/java/org/joker/comfypilot/session/infrastructure/websocket/WebSocketAuthInterceptor.java:40-45 | a non-blank first Authorization header is the token, and the query is then not consulted |
| HandshakeAuth.QueryTokenUsed | src/main/java/org/joker/comfypilot/session/infrastructure/websocket/WebSocketAuthInterceptor.java:48-59 | without the header, a leading "token=" query parameter supplies the token |
| HandshakeAuth.ExtractSessionCode | src/main/java/org/joker/comfypilot/session/infrastructure/websocket/WebSocketAuthInterceptor.java:116-130 | a null or empty query gives no session code; otherwise the code is the remainder of the first "sessionCode=" parameter of the query, which URI.getQuery() has already percent-decoded, with no further decoding |
| HandshakeAuth.SessionCodeFirst | src/main/java/org/joker/comfypilot/session/infrastructure/websocket/WebSocketAuthInterceptor.java:116-130 | a query starting with "sessionCode=" followed by a code without '&' yields that code |
| HandshakeAuth.LeadingParamFound | src/main/java/org/joker/comfypilot/session/infrastructure/websocket/WebSocketAuthInterceptor.java:51-57 | the first parameter of a query is found by its name whatever follows the first '&' |
| HandshakeAuth.DropKeepsFirst | src/main/java/org/joker/comfypilot/session/infrastructure/websocket/WebSocketAuthInterceptor.java:51 | String.split drops only trailing empty strings, so a non-empty first part survives |
| HandshakeAuth.Handshake | src/main/java/org/joker/comfypilot/session/infrastructure/websocket/WebSocketAuthInterceptor.java:34-102 | an accepted handshake names a session code owned by the user the token belongs to; the lookup's exception "会话不存在: " plus the code is raised only for a usable code that names no session |
| HandshakeAuth.AcceptedIff | src/main/java/org/joker/comfypilot/session/infrastructure/websocket/WebSocketAuthInterceptor.java:34-102 | a handshake is accepted exactly when the token is known and the session code is non-blank, exists and belongs to the token's user |
| HandshakeAuth.TokenCheckedFirst | src/main/java/org/joker/comfypilot/session/infrastructure/websocket/WebSocketAuthInterceptor.java:61-68 | a missing or unknown token is refused as unauthorized before the session code is looked at |
| HandshakeAuth.UnknownCodeThrows | src/main/java/org/joker/comfypilot/session/application/service/impl/ChatSessionServiceImpl.java:72-79 | with a known token and a non-blank code that names no session, the handshake ends in the RuntimeException "会话不存在: " plus the code, never in a 404 |

## Left out

- Network, database, Redis and file-system I/O: stores are Dafny maps and sequences threaded through the operations, and writes always succeed unless a parameter says otherwise. Redis key expiry is not modelled.
- Concurrency: each concurrent map and atomic reference is treated as a value updated one call at a time. Reference equality in `AtomicReference.compareAndSet` is modelled as value equality of request ids.
- Clocks, random UUIDs, the operating-system name, the PowerShell probe and the SHA-256 digest are parameters. The digest's bytes are an input to the hex rendering.
- Regular expressions are parameters: the version pattern of the Python runtime probe and the agent-config `pattern` check.
- JSON serialisation (Jackson, fastjson): payloads are the `Json` value itself, not its text. Only the hand-written JSON of `FileInfo` and the `json.dumps` list read by the Python probe are modelled as text.
- Floating point: temperatures and other double settings are not modelled. `ChatModelConfig.CheckDouble` keeps only whether a value can be read as a double, and whether text parses as one is a parameter.
- AgentConfigs.CheckValue: a FLOAT item is checked for being a number, but its min/max bounds are not checked, because the model's numbers are integers.
- Paging.TotalPages: the double-precision ceiling is taken as the exact rational ceiling, so totals above 2^53, where the double rounds, are not modelled.
- FileInfos.ToJsonString: its contract states only the frame of the object: it opens with the "name" key and ends with a brace. The escaping of the name and path is stated by the `EscapeJson` lemmas, and the null defaults by `NullFieldsDefault`.
- JavaStrings: upper and lower case conversion, and `equalsIgnoreCase`, are ASCII-only. `ParseInt` accepts only the ASCII digits '0'..'9', while Integer.parseInt, through Character.digit, also reads other Unicode decimal digits (Arabic-Indic or full-width ones, for example); such versions and numbers, in the agent registry's version comparison (AgentRegistryImpl.java:168), the Python version check, `ChatModelConfig.ConvertToInteger` and `WorkflowAgentSetup.LimitOr`, fail in the model where Java would read them. Strings count chars, as Java's UTF-16 code units do, and never meet surrogate pairs.
- Servlet header names are looked up exactly as given. The container's case-insensitive lookup is assumed to have happened.
- The ReAct loop runs with no event publisher. The iteration-start and model-call events and their cancellation are not modelled, nor are the model's streaming partial replies.
- `addMessageWithEvent`'s events and callbacks are not modelled: the before/after message events and the success and failure callbacks. Every message it records is added. The empty model reply, a failed model call and a failed tool-result step are modelled; the texts of their exceptions are parameters.
- The text of the exception thrown for a null tool result is a parameter.
- The agent event class is not part of this model. Its cancelled flag is a sticky boolean that a listener may raise.
- `WebSocketSessionManager.requestInterrupt` calls a context method that the context class does not define, so it is left out.
- After queuing a removal callback, the manager checks again whether the connection is still present. That check only matters when another thread removes the connection in between, so it is not modelled: a queued callback waits for `removeSession`.
- The `ToolCallWaitManager` timeout handler, which completes a wait exceptionally after its deadline, is not modelled: time does not pass in the model.
- Skill records, the shell type and the status enums are not part of this model. Their fields and constants are taken from the uses in the modelled files.
- `ProviderType.fromCode` is not part of this model: which provider codes are known is a parameter.
- `Path.resolve` is not modelled. A full path is the directory and the name joined by one separator.
- The order of `findPermissionsByRoleIds`'s rows is not modelled. The permission codes are kept in the order the table value lists them.
- LogicalDeleteInsert.ExtractKeyInfo: single and composite key fields are taken in field-declaration order. A `HashMap` iterates single keys and composite groups in hash order, and the model takes them in insertion order. Only the contents of the maps are promised, by the `Present` and `Latest` lemmas.
- LogicalDeleteInsert.BuildQueryCondition: with several single unique keys it takes the first inserted one. The source takes whichever one the `HashMap` yields first, so what is promised for all inputs is that the condition is on one of the declared single keys (`SingleKeyCondition`). The same holds for the choice among composite groups.
- LogicalDeleteInsert.IsDeleted: JDBC column values are collapsed into numbers and text. A flag read back as a `Boolean` false or a `Short` 0 counts as deleted in the source, because only `0L` and `0` count as live; the model cannot tell these from a number.
- SessionManager.NewContext: the model follows the context class, which has a request slot and an agent execution context that start empty. `addSession` calls builder methods (`executing`, `interrupted`) that the context class does not declare, and leaves both references null, so `startExecution` would throw on them. The model starts them as empty references. `ChatWebSocketHandler` using the result of the void `addSession` is not modelled.
- VersionCompare.SyncDecision: it uses the corrected comparison, while the source at line 106 uses the wrapping one. The decision as written is `SyncDecisionAsWritten`. `SyncAsWrittenAgrees` shows the two agree unless the exact difference leaves the int range, and `SyncAsWrittenSkipsUpdate` shows an input where they differ.
- VersionCompare.MeetsRequirement: it uses the corrected comparison, while the source at line 203 uses the wrapping one. The check as written is `MeetsRequirementAsWritten`. `RequirementAsWrittenAgrees` shows the two agree unless the exact difference leaves the int range, and `RequirementAsWrittenRefuses` shows an input where they differ.
- Wget.FileNameFor: it uses the corrected extractor, while the source at line 146 uses the one that cuts at the last '/' of the whole URL. The choice as written is `FileNameForAsWritten`. `FileNameAgreesWithoutQuery` shows the two agree on URLs without a query, and `FileNameAsWrittenDiffers` shows where they differ.
- McpSchema: a non-string item in an `enum` or `required` list reads as a failure. Java would carry it through an unchecked cast.
- TodoLists.TodoWrite: it reads a JSON-null status as "pending", while TodoWriteTool.java:113 keeps it null; the call as written is `TodoWriteAsWritten`, and `NullStatusWriteReportsError` shows where they differ. The listing after the save is taken to read back exactly the list just saved, because a failed Redis read, which reads as an empty list, is not modelled there. The existing list is the caller's `existing` argument, already read. The texts of the JVM's ClassCastException and NullPointerException messages are inputs.
- `ChatMemory.UpdateMessages` does not model the callback run when a session's list is removed, nor the `closed` flag it returns. It stores the corrected normalisation; the source runs the pass as written, which can throw or store a list that is not well formed. The update as written is `UpdateMessagesAsWritten`, and `UpdateAsWrittenDiffers` shows where the two differ.
- ChatMemory.AdjustMessages: its own contract promises only a well-formed result. `NormalHistoryUnchanged` states that a history which is already well formed, with every request answered in order, comes back unchanged. The repairs are stated for the inputs of `MissingResultRepaired` and `OrphanResultSurvives`. Which messages of an arbitrary history survive is not stated.
- WorkflowAgent's prompt building and its system-prompt text are not modelled. The model covers its configuration, limits and tool assembly.
- AiModelService's create/list logic is modelled through identifier derivation and parsing; update, enable, disable and delete only write repository rows and are not modelled.
- The text of the JVM's NullPointerException messages is a constant string, not the JVM's detailed message.

## Findings

| source | as written | input that shows it | evidently intended | confidence | as-written member | corrected member |
|---|---|---|---|---|---|---|
| src/main/java/org/joker/comfypilot/agent/infrastructure/memory/ChatMemoryChatMemoryStore.java:163 | `reversed()` returns a new list that is discarded. The matched tool results are then removed in ascending index order, so every removal after the first hits a shifted index. | a user message, then an AI message with three tool requests a, b, c, then results for a and b | remove the matched results from the highest index down, then put them back in request order after the AI message | not executed | ChatMemory.MissingResultThrows | ChatMemory.MissingResultRepaired |
| src/main/java/org/joker/comfypilot/agent/infrastructure/memory/ChatMemoryChatMemoryStore.java:197-206 | a null, unknown or orphan message is removed at index i, but the loop goes on with i+1, so the message that moved into i is never examined | two orphan tool results x, y (y is kept); an unknown message followed by an AI message (the AI message gets no preceding user message) | examine position i again after a removal | not executed | ChatMemory.OrphanResultSurvives | ChatMemory.AdjustMessages |
| src/main/java/org/joker/comfypilot/agent/infrastructure/registry/AgentRegistryImpl.java:171 | the component comparison returns `a - b` as a 32-bit int, which wraps | "0" against "-2147483648": both orders compare as negative | return the sign of the comparison (Integer.compare) | not executed | VersionCompare.RegistryWrapCounterexample | VersionCompare.RegistryAntisymmetric |
| src/main/java/org/joker/comfypilot/script/detector/PythonRuntimeDetector.java:225 | the same `a - b` comparison of version components wraps on 32 bits | "0" against "-2147483648": both orders compare as negative | return the sign of the comparison | not executed | VersionCompare.PythonWrapCounterexample | VersionCompare.PythonAntisymmetric |
| src/main/java/org/joker/comfypilot/common/util/WgetUtil.java:211-214 | the file name is taken after the last '/' of the whole URL, which can lie inside the query string | "https://h/f.zip?next=/x" is saved as "x" | strip the query first, then take the last path segment ("f.zip") | not executed | Wget.AsWrittenTakesQuerySegment | Wget.ExtractFindsLastSegment |
| src/main/java/org/joker/comfypilot/agent/infrastructure/tool/TodoWriteTool.java:113 | `getOrDefault("status", "pending")` keeps a status that is present but JSON null, and the later formatting dereferences it | a todo item whose "status" is null | treat a null status as "pending" | not executed | TodoLists.NullStatusBreaksListing | TodoLists.NullStatusReadsPending |
