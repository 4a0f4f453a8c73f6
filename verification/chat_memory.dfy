/**
 * The per-session chat history kept for the agent, and the normaliser that rewrites
 * a history until a chat model will accept it: at most one system message, user
 * and AI messages alternating, and every AI tool request answered by a tool result.
 *
 * The Java normaliser is one `for` loop over an index i that edits the list in
 * place. Every edit touches position i or later (an insertion at i pushes the
 * current message right), so the loop is modelled as a left-to-right pass over a
 * pair (done, rest): done is the list before i, rest the list from i on, and one
 * step examines rest[0] together with the last message of done.
 */
module ChatMemory {
  import opened Wrappers
  import JavaStrings

  datatype Content = TextContent(text: string) | MediaContent(mediaKind: string, data: string)

  datatype ToolRequest = ToolRequest(id: string, name: string, arguments: string)

  /** The langchain4j message kinds the normaliser distinguishes; UnknownMessage stands for
    * null and for every other ChatMessage subtype. */
  datatype ChatMessage =
    | SystemMessage(text: string)
    | UserMessage(contents: seq<Content>)
    | AiMessage(aiText: Option<string>, requests: seq<ToolRequest>)
    | ToolResultMessage(id: string, toolName: string, resultText: string)
    | UnknownMessage

  const INTERRUPTED_TEXT: string := "执行被中断..."
  const HISTORY_LOST_TEXT: string := "用户历史记录丢失..."
  const RESULT_LOST_TEXT: string := "执行结果丢失..."

  /** UserMessage.from(String): one text content. */
  function UserText(text: string): ChatMessage {
    UserMessage([TextContent(text)])
  }

  /** ToolExecutionResultMessage.from(request, text). */
  function ResultFor(request: ToolRequest, text: string): ChatMessage {
    ToolResultMessage(request.id, request.name, text)
  }

  // ===========================================================================
  // The store: session id -> history
  // ===========================================================================

  type Store = map<string, seq<ChatMessage>>

  datatype AddOutcome = AddOutcome(closed: bool, store: Store)

  /** addMessage: a session without a list reports closed and nothing changes; a system
    * message only replaces a system message at the head; anything else is appended. */
  function AddMessage(store: Store, sessionId: string, message: ChatMessage): (r: AddOutcome)
    ensures r.closed <==> sessionId !in store
    ensures r.closed ==> r.store == store
    ensures r.store.Keys == store.Keys
    ensures forall k :: k in store && k != sessionId ==> r.store[k] == store[k]
    ensures !r.closed && !message.SystemMessage? ==> r.store[sessionId] == store[sessionId] + [message]
    ensures !r.closed && message.SystemMessage? ==> |r.store[sessionId]| == |store[sessionId]|
    ensures !r.closed && message.SystemMessage? && |store[sessionId]| > 0 ==>
      r.store[sessionId][1..] == store[sessionId][1..]
      && (r.store[sessionId][0] == message <==> store[sessionId][0].SystemMessage? || store[sessionId][0] == message)
  {
    if sessionId !in store then AddOutcome(true, store)
    else
      var history := store[sessionId];
      if message.SystemMessage? then
        if |history| > 0 && history[0].SystemMessage? then AddOutcome(false, store[sessionId := [message] + history[1..]])
        else AddOutcome(false, store)
      else AddOutcome(false, store[sessionId := history + [message]])
  }

  predicate SystemOnlyAtHead(ms: seq<ChatMessage>) {
    forall i :: 0 < i < |ms| ==> !ms[i].SystemMessage?
  }

  /** addMessage never lets a second system message into a history. */
  lemma AddMessageKeepsSystemAtHead(store: Store, sessionId: string, message: ChatMessage)
    requires sessionId in store && SystemOnlyAtHead(store[sessionId])
    ensures SystemOnlyAtHead(AddMessage(store, sessionId, message).store[sessionId])
  {
  }

  datatype DeleteOutcome = DeleteOutcome(existed: bool, store: Store)

  /** deleteMessages: reports whether the session had a history, and drops it. */
  function DeleteMessages(store: Store, sessionId: string): (r: DeleteOutcome)
    ensures r.existed <==> sessionId in store
    ensures r.store.Keys == store.Keys - {sessionId}
    ensures forall k :: k in r.store ==> r.store[k] == store[k]
  {
    DeleteOutcome(sessionId in store, map k | k in store && k != sessionId :: store[k])
  }

  lemma DeleteTwice(store: Store, sessionId: string)
    ensures !DeleteMessages(DeleteMessages(store, sessionId).store, sessionId).existed
  {
  }

  /** updateMessages: the normalised copy replaces the session's history. */
  function UpdateMessages(store: Store, sessionId: string, messages: seq<ChatMessage>): (r: Store)
    ensures sessionId in r && WellFormed(r[sessionId])
    ensures forall k :: k in store && k != sessionId ==> k in r && r[k] == store[k]
  {
    store[sessionId := AdjustMessages(messages)]
  }

  // ===========================================================================
  // adjustUserMessage
  // ===========================================================================

  function TextsOf(cs: seq<Content>): seq<string> {
    if cs == [] then [] else (if cs[0].TextContent? then [cs[0].text] else []) + TextsOf(cs[1..])
  }

  function NonTextsOf(cs: seq<Content>): (r: seq<Content>)
    ensures forall i :: 0 <= i < |r| ==> !r[i].TextContent?
    ensures forall c :: c in r ==> c in cs
  {
    if cs == [] then [] else (if cs[0].TextContent? then [] else [cs[0]]) + NonTextsOf(cs[1..])
  }

  lemma {:induction false} NoTexts(cs: seq<Content>)
    requires forall i :: 0 <= i < |cs| ==> !cs[i].TextContent?
    ensures TextsOf(cs) == [] && NonTextsOf(cs) == cs
  {
    if cs != [] {
      NoTexts(cs[1..]);
    }
  }

  function LastTextIndex(cs: seq<Content>): (r: int)
    ensures -1 <= r < |cs|
    ensures r >= 0 ==> cs[r].TextContent?
    ensures forall j :: r < j < |cs| ==> !cs[j].TextContent?
  {
    if cs == [] then -1
    else if cs[|cs| - 1].TextContent? then |cs| - 1
    else LastTextIndex(cs[..|cs| - 1])
  }

  /** One StringBuilder append of the Java loops: the newline goes in only once the
    * builder is non-empty, so a leading empty text adds no separator. */
  function AppendLine(acc: string, t: string): string {
    if acc == "" then t else acc + "\n" + t
  }

  function FoldLines(acc: string, ts: seq<string>): string
    decreases |ts|
  {
    if ts == [] then acc else FoldLines(AppendLine(acc, ts[0]), ts[1..])
  }

  /** When no text is empty the fold is an ordinary newline join. */
  lemma {:induction false} FoldLinesJoin(acc: string, ts: seq<string>)
    requires acc != ""
    requires forall i :: 0 <= i < |ts| ==> ts[i] != ""
    ensures FoldLines(acc, ts) == JavaStrings.Join([acc] + ts, "\n")
    decreases |ts|
  {
    if ts != [] {
      var next := acc + "\n" + ts[0];
      FoldLinesJoin(next, ts[1..]);
      if |ts| == 1 {
        assert [acc] + ts == [acc, ts[0]];
        assert ([acc] + ts)[1..] == [ts[0]];
      } else {
        assert ([acc] + ts)[1..] == ts;
        assert ([next] + ts[1..])[1..] == ts[1..];
      }
    }
  }

  lemma JoinOfNonEmptyTexts(ts: seq<string>)
    requires |ts| > 0
    requires forall i :: 0 <= i < |ts| ==> ts[i] != ""
    ensures FoldLines("", ts) == JavaStrings.Join(ts, "\n")
  {
    FoldLinesJoin(ts[0], ts[1..]);
    assert [ts[0]] + ts[1..] == ts;
  }

  /** A user message the model accepts: its only text content comes first. */
  predicate NormalUser(m: ChatMessage) {
    m.UserMessage? && |m.contents| > 0 && m.contents[0].TextContent?
    && forall k :: 1 <= k < |m.contents| ==> !m.contents[k].TextContent?
  }

  /** adjustUserMessage: no contents becomes a single empty text; otherwise all texts
    * are folded into one text put first, the other contents keeping their order. */
  function AdjustUser(u: ChatMessage): (r: ChatMessage)
    requires u.UserMessage?
    ensures NormalUser(r)
    ensures |u.contents| == 0 ==> r == UserText("")
    ensures |u.contents| > 0 ==>
      r.contents[0] == TextContent(FoldLines("", TextsOf(u.contents))) && r.contents[1..] == NonTextsOf(u.contents)
  {
    var cs := u.contents;
    if |cs| == 0 then UserText("")
    else if LastTextIndex(cs) != 0 then UserMessage([TextContent(FoldLines("", TextsOf(cs)))] + NonTextsOf(cs))
    else
      NoTexts(cs[1..]);
      assert cs == [cs[0]] + cs[1..];
      u
  }

  /** A message that is already normal comes back as the same message. */
  lemma AdjustUserKeepsNormal(u: ChatMessage)
    requires NormalUser(u)
    ensures AdjustUser(u) == u
  {
  }

  lemma AdjustUserIdempotent(u: ChatMessage)
    requires u.UserMessage?
    ensures AdjustUser(AdjustUser(u)) == AdjustUser(u)
  {
    AdjustUserKeepsNormal(AdjustUser(u));
  }

  // ===========================================================================
  // Measures and list helpers for the normaliser
  // ===========================================================================

  /** A step may insert messages (an AI placeholder after a user, missing tool results
    * after an AI), so the pass is measured by weight, not length: a user weighs more than
    * the placeholder AI it may gain, and an AI weighs more than the results it may gain. */
  function MessageWeight(m: ChatMessage): (w: nat)
    ensures w >= 1
  {
    match m
    case UserMessage(_) => 2
    case AiMessage(_, requests) => 1 + |requests|
    case _ => 1
  }

  function Weight(ms: seq<ChatMessage>): nat {
    if ms == [] then 0 else MessageWeight(ms[0]) + Weight(ms[1..])
  }

  lemma {:induction false} WeightConcat(a: seq<ChatMessage>, b: seq<ChatMessage>)
    ensures Weight(a + b) == Weight(a) + Weight(b)
  {
    if a == [] {
      assert a + b == b;
    } else {
      assert (a + b)[1..] == a[1..] + b;
      WeightConcat(a[1..], b);
    }
  }

  lemma WeightSplit(ms: seq<ChatMessage>, i: nat)
    requires i <= |ms|
    ensures Weight(ms) == Weight(ms[..i]) + Weight(ms[i..])
    ensures i > 0 ==> Weight(ms[i..]) < Weight(ms)
  {
    assert ms == ms[..i] + ms[i..];
    WeightConcat(ms[..i], ms[i..]);
  }

  lemma {:induction false} WeightOfResults(ms: seq<ChatMessage>)
    requires forall i :: 0 <= i < |ms| ==> ms[i].ToolResultMessage?
    ensures Weight(ms) == |ms|
  {
    if ms != [] {
      WeightOfResults(ms[1..]);
    }
  }

  predicate NoSystems(ms: seq<ChatMessage>) {
    forall i :: 0 <= i < |ms| ==> !ms[i].SystemMessage?
  }

  function WithoutSystems(ms: seq<ChatMessage>): (r: seq<ChatMessage>)
    ensures NoSystems(r)
    ensures Weight(r) <= Weight(ms)
    ensures forall m :: m in r ==> m in ms
  {
    if ms == [] then []
    else
      var tail := WithoutSystems(ms[1..]);
      if ms[0].SystemMessage? then tail
      else
        assert ([ms[0]] + tail)[1..] == tail;
        [ms[0]] + tail
  }

  function LastSystemIndex(ms: seq<ChatMessage>): (r: int)
    ensures -1 <= r < |ms|
    ensures r >= 0 ==> ms[r].SystemMessage?
    ensures forall j :: r < j < |ms| ==> !ms[j].SystemMessage?
  {
    if ms == [] then -1
    else if ms[|ms| - 1].SystemMessage? then |ms| - 1
    else LastSystemIndex(ms[..|ms| - 1])
  }

  function LastAiIndex(ms: seq<ChatMessage>): (r: int)
    ensures -1 <= r < |ms|
    ensures r >= 0 ==> ms[r].AiMessage?
    ensures forall j :: r < j < |ms| ==> !ms[j].AiMessage?
  {
    if ms == [] then -1
    else if ms[|ms| - 1].AiMessage? then |ms| - 1
    else LastAiIndex(ms[..|ms| - 1])
  }

  function LeadingUsers(ms: seq<ChatMessage>): (n: nat)
    ensures n <= |ms|
    ensures forall k :: 0 <= k < n ==> ms[k].UserMessage?
    ensures n < |ms| ==> !ms[n].UserMessage?
  {
    if ms != [] && ms[0].UserMessage? then 1 + LeadingUsers(ms[1..]) else 0
  }

  function LeadingResults(ms: seq<ChatMessage>): (n: nat)
    ensures n <= |ms|
    ensures forall k :: 0 <= k < n ==> ms[k].ToolResultMessage?
    ensures n < |ms| ==> !ms[n].ToolResultMessage?
  {
    if ms != [] && ms[0].ToolResultMessage? then 1 + LeadingResults(ms[1..]) else 0
  }

  /** Lines 184-195: drop every message before the next user message. */
  function DropNonUsers(ms: seq<ChatMessage>): (r: seq<ChatMessage>)
    ensures |r| <= |ms| && r == ms[|ms| - |r|..]
    ensures r == [] || r[0].UserMessage?
    ensures forall k :: 0 <= k < |ms| - |r| ==> !ms[k].UserMessage?
  {
    if ms != [] && !ms[0].UserMessage? then
      var r := DropNonUsers(ms[1..]);
      assert ms[1..][|ms| - 1 - |r|..] == ms[|ms| - |r|..];
      assert forall k :: 1 <= k < |ms| - |r| ==> ms[k] == ms[1..][k - 1];
      r
    else ms
  }

  function Last(done: seq<ChatMessage>): (r: Option<ChatMessage>)
    ensures r.Some? <==> done != []
    ensures r.Some? ==> r.value == done[|done| - 1]
  {
    if done == [] then None else Some(done[|done| - 1])
  }

  // ===========================================================================
  // One step of adjustMessages
  // ===========================================================================

  /** What a step appends to the processed prefix, and what is left to process. */
  datatype Step = Step(emitted: seq<ChatMessage>, rest: seq<ChatMessage>)

  /** Lines 76-90: the system message at i takes the text of the last later system message,
    * and every later system message is removed. */
  function SystemStep(rest: seq<ChatMessage>): (r: Step)
    requires |rest| > 0 && rest[0].SystemMessage?
    ensures |r.emitted| == 1 && r.emitted[0].SystemMessage? && r.emitted[0] in rest
    ensures forall j :: 0 <= j < |rest| && rest[j].SystemMessage? && rest[j] != r.emitted[0] ==>
      exists k :: j < k < |rest| && rest[k] == r.emitted[0]
    ensures NoSystems(r.rest)
    ensures Weight(r.rest) < Weight(rest)
  {
    var s := LastSystemIndex(rest);
    Step([rest[s]], WithoutSystems(rest[1..]))
  }

  function AdjustUsers(us: seq<ChatMessage>): (r: seq<ChatMessage>)
    requires forall k :: 0 <= k < |us| ==> us[k].UserMessage?
    ensures |r| == |us|
    ensures forall k :: 0 <= k < |us| ==> r[k] == AdjustUser(us[k])
  {
    if us == [] then [] else [AdjustUser(us[0])] + AdjustUsers(us[1..])
  }

  /** The text of a normal user message's first content (the cast at line 122). */
  function FirstText(m: ChatMessage): string {
    if m.UserMessage? && |m.contents| > 0 && m.contents[0].TextContent? then m.contents[0].text else ""
  }

  function FirstTexts(us: seq<ChatMessage>): (r: seq<string>)
    ensures |r| == |us|
    ensures forall k :: 0 <= k < |us| ==> r[k] == FirstText(us[k])
  {
    if us == [] then [] else [FirstText(us[0])] + FirstTexts(us[1..])
  }

  /** Lines 114-133: the run collapses into one message whose first text folds the run's
    * texts and whose other contents are those of the last message in the run. */
  function MergeUsers(us: seq<ChatMessage>): (r: ChatMessage)
    requires |us| > 0
    requires forall k :: 0 <= k < |us| ==> NormalUser(us[k])
    ensures NormalUser(r)
    ensures r.contents[0] == TextContent(FoldLines("", FirstTexts(us)))
    ensures NormalUser(us[|us| - 1]) && r.contents[1..] == us[|us| - 1].contents[1..]
  {
    var lastUser := us[|us| - 1];
    assert NormalUser(lastUser);
    var cs := [TextContent(FoldLines("", FirstTexts(us)))] + lastUser.contents[1..];
    assert forall k :: 1 <= k < |cs| ==> cs[k] == lastUser.contents[k];
    UserMessage(cs)
  }

  /** The user message at i together with the users directly after it. */
  function UserRunLength(rest: seq<ChatMessage>): (n: nat)
    requires |rest| > 0
    ensures 1 <= n <= |rest|
    ensures forall k :: 0 <= k < n ==> rest[k].UserMessage? || k == 0
    ensures n < |rest| ==> !rest[n].UserMessage?
  {
    1 + LeadingUsers(rest[1..])
  }

  /** Lines 91-139. */
  function UserStep(rest: seq<ChatMessage>): (r: Step)
    requires |rest| > 0 && rest[0].UserMessage?
    ensures |r.emitted| == 1 && NormalUser(r.emitted[0])
    ensures r.emitted[0].contents[0]
      == TextContent(FoldLines("", FirstTexts(AdjustUsers(rest[..UserRunLength(rest)]))))
    ensures var after := rest[UserRunLength(rest)..];
      if after != [] && after[0].AiMessage? then r.rest == after
      else r.rest == [AiMessage(Some(INTERRUPTED_TEXT), [])] + after
    ensures Weight(r.rest) < Weight(rest)
  {
    var n := UserRunLength(rest);
    var run := AdjustUsers(rest[..n]);
    var merged := if n == 1 then run[0] else MergeUsers(run);
    var after := rest[n..];
    var next := if after != [] && after[0].AiMessage? then after else [AiMessage(Some(INTERRUPTED_TEXT), [])] + after;
    assert n == 1 ==> FirstTexts(run) == [FirstText(run[0])];
    WeightSplit(rest, n);
    assert Weight(rest[..n]) >= 2 by {
      assert Weight(rest[..n]) == 2 + Weight(rest[..n][1..]);
    }
    WeightConcat([AiMessage(Some(INTERRUPTED_TEXT), [])], after);
    Step([merged], next)
  }

  /** The ids of the tool results in a run. */
  function ResultIds(rs: seq<ChatMessage>): set<string>
    requires forall k :: 0 <= k < |rs| ==> rs[k].ToolResultMessage?
  {
    set k | 0 <= k < |rs| :: rs[k].id
  }

  /** Line 161: the results after an AI need rebuilding when their number differs from the
    * number of requests or two of them share an id. */
  predicate NeedsRepair(requests: seq<ToolRequest>, after: seq<ChatMessage>) {
    var k := LeadingResults(after);
    |requests| != k || |ResultIds(after[..k])| != k
  }

  /** The index of the last result with this id, or -1. */
  function LastResultWithId(rs: seq<ChatMessage>, id: string): (r: int)
    requires forall k :: 0 <= k < |rs| ==> rs[k].ToolResultMessage?
    ensures -1 <= r < |rs|
    ensures r >= 0 ==> rs[r].id == id
    ensures r == -1 <==> forall k :: 0 <= k < |rs| ==> rs[k].id != id
  {
    if rs == [] then -1
    else if rs[|rs| - 1].id == id then |rs| - 1
    else LastResultWithId(rs[..|rs| - 1], id)
  }

  /** The index of the first result with this id, or -1. */
  function FirstResultWithId(rs: seq<ChatMessage>, id: string): (r: int)
    requires forall k :: 0 <= k < |rs| ==> rs[k].ToolResultMessage?
    ensures -1 <= r < |rs|
    ensures r >= 0 ==> rs[r].id == id
    ensures r == -1 <==> forall k :: 0 <= k < |rs| ==> rs[k].id != id
  {
    if rs == [] then -1
    else if rs[0].id == id then 0
    else
      var k := FirstResultWithId(rs[1..], id);
      if k == -1 then -1 else k + 1
  }

  /** Lines 166-168 keep the first result met per id: with removal from the highest index
    * down that is the last one in the list, with removal upwards the first one. */
  function KeptResult(rs: seq<ChatMessage>, id: string, keepLast: bool): (r: int)
    requires forall k :: 0 <= k < |rs| ==> rs[k].ToolResultMessage?
    ensures -1 <= r < |rs|
    ensures r >= 0 ==> rs[r].id == id
    ensures r == -1 <==> forall k :: 0 <= k < |rs| ==> rs[k].id != id
  {
    if keepLast then LastResultWithId(rs, id) else FirstResultWithId(rs, id)
  }

  function ResultForRequest(request: ToolRequest, rs: seq<ChatMessage>, keepLast: bool): (r: ChatMessage)
    requires forall k :: 0 <= k < |rs| ==> rs[k].ToolResultMessage?
    ensures r.ToolResultMessage? && r.id == request.id
    ensures r in rs || r == ResultFor(request, RESULT_LOST_TEXT)
    ensures r !in rs ==> forall j :: 0 <= j < |rs| ==> rs[j].id != request.id
  {
    var k := KeptResult(rs, request.id, keepLast);
    if k == -1 then ResultFor(request, RESULT_LOST_TEXT) else rs[k]
  }

  /** Lines 170-177: one result per request, in request order; a request nobody answered
    * gets a "result lost" placeholder. */
  function ResultsInRequestOrder(requests: seq<ToolRequest>, rs: seq<ChatMessage>, keepLast: bool): (r: seq<ChatMessage>)
    requires forall k :: 0 <= k < |rs| ==> rs[k].ToolResultMessage?
    ensures |r| == |requests|
    ensures forall k :: 0 <= k < |r| ==> r[k] == ResultForRequest(requests[k], rs, keepLast)
  {
    seq(|requests|, k requires 0 <= k < |requests| => ResultForRequest(requests[k], rs, keepLast))
  }

  /** Lines 148-181, with the result indices removed from the highest down. The removal
    * order makes the first result met per id, and so the one kept, the LAST in the list. */
  function RepairResults(requests: seq<ToolRequest>, after: seq<ChatMessage>): (r: seq<ChatMessage>)
    requires |requests| > 0
    ensures |requests| <= |r|
    ensures forall k :: 0 <= k < |requests| ==> r[k].ToolResultMessage?
    ensures !NeedsRepair(requests, after) ==> r == after
    ensures NeedsRepair(requests, after) ==>
      var rs := after[..LeadingResults(after)];
      r[|requests|..] == after[LeadingResults(after)..]
      && forall k :: 0 <= k < |requests| ==>
        r[k].id == requests[k].id
        && (r[k] in rs || r[k] == ResultFor(requests[k], RESULT_LOST_TEXT))
        && (r[k] !in rs ==> forall j :: 0 <= j < |rs| ==> rs[j].id != requests[k].id)
    ensures Weight(r) <= |requests| + Weight(after)
  {
    var k := LeadingResults(after);
    if !NeedsRepair(requests, after) then after
    else
      var rs := after[..k];
      var results := ResultsInRequestOrder(requests, rs, true);
      WeightOfResults(results);
      WeightConcat(results, after[k..]);
      WeightSplit(after, k);
      results + after[k..]
  }

  /** Lines 184-195 applied to a repaired list: the n results stay, and whatever follows
    * them up to the next user message is dropped. */
  function KeepResultsThenUser(n: nat, grouped: seq<ChatMessage>): (r: seq<ChatMessage>)
    requires n <= |grouped|
    requires forall k :: 0 <= k < n ==> grouped[k].ToolResultMessage?
    ensures n <= |r| && r[..n] == grouped[..n]
    ensures forall k :: 0 <= k < n ==> r[k].ToolResultMessage?
    ensures |r| == n || r[n].UserMessage?
    ensures Weight(r) <= Weight(grouped)
  {
    var tail := DropNonUsers(grouped[n..]);
    WeightSplit(grouped, n);
    WeightSplit(grouped[n..], |grouped[n..]| - |tail|);
    WeightConcat(grouped[..n], tail);
    var next := grouped[..n] + tail;
    assert next[..n] == grouped[..n];
    assert |next| == n || next[n] == tail[0];
    next
  }

  /** Lines 140-196. */
  function AiStep(prev: Option<ChatMessage>, rest: seq<ChatMessage>): (r: Step)
    requires |rest| > 0 && rest[0].AiMessage?
    ensures r.emitted == (if prev.Some? && prev.value.UserMessage? then [] else [UserText(HISTORY_LOST_TEXT)]) + [rest[0]]
    ensures |rest[0].requests| <= |r.rest|
    ensures forall k :: 0 <= k < |rest[0].requests| ==> r.rest[k].ToolResultMessage?
    ensures |r.rest| == |rest[0].requests| || r.rest[|rest[0].requests|].UserMessage?
    ensures Weight(r.rest) < Weight(rest)
  {
    var requests := rest[0].requests;
    var n := |requests|;
    var pre := if prev.Some? && prev.value.UserMessage? then [] else [UserText(HISTORY_LOST_TEXT)];
    var after := rest[1..];
    WeightSplit(rest, 1);
    assert Weight(rest[..1]) == 1 + n;
    var grouped := if n > 0 then RepairResults(requests, after) else after;
    assert Weight(grouped) <= n + Weight(after);
    Step(pre + [rest[0]], KeepResultsThenUser(n, grouped))
  }

  /** Lines 197-202: a tool result is kept only right after an AI message or another result. */
  predicate FollowsAiGroup(prev: Option<ChatMessage>) {
    prev.Some? && (prev.value.AiMessage? || prev.value.ToolResultMessage?)
  }

  /** One step of the normaliser with both defects corrected: the tool results are removed
    * from the highest index down, and a removal re-examines the message that moves into i. */
  function NextStep(prev: Option<ChatMessage>, rest: seq<ChatMessage>): (r: Step)
    requires |rest| > 0
    ensures Weight(r.rest) < Weight(rest)
  {
    WeightSplit(rest, 1);
    match rest[0]
    case SystemMessage(_) => SystemStep(rest)
    case UserMessage(_) => UserStep(rest)
    case AiMessage(_, _) => AiStep(prev, rest)
    case ToolResultMessage(_, _, _) => if FollowsAiGroup(prev) then Step([rest[0]], rest[1..]) else Step([], rest[1..])
    case UnknownMessage => Step([], rest[1..])
  }

  function AdjustFrom(done: seq<ChatMessage>, rest: seq<ChatMessage>): seq<ChatMessage>
    decreases Weight(rest)
  {
    if rest == [] then done
    else
      var s := NextStep(Last(done), rest);
      AdjustFrom(done + s.emitted, s.rest)
  }

  /** adjustMessages, corrected: the result is always a well-formed conversation. */
  function AdjustMessages(messages: seq<ChatMessage>): (r: seq<ChatMessage>)
    ensures WellFormed(r)
  {
    AdjustFromWellFormed([], messages);
    AdjustFrom([], messages)
  }

  // ===========================================================================
  // Well-formed conversations
  // ===========================================================================

  /** A user message, the AI message answering it, and one tool result per tool request. */
  predicate ExchangeBlock(b: seq<ChatMessage>) {
    |b| >= 2 && NormalUser(b[0]) && b[1].AiMessage? && |b| == 2 + |b[1].requests|
    && forall k :: 2 <= k < |b| ==> b[k].ToolResultMessage?
  }

  predicate Exchanges(ms: seq<ChatMessage>)
    decreases |ms|
  {
    ms == []
    || (|ms| >= 2 && ms[1].AiMessage? && 2 + |ms[1].requests| <= |ms|
        && ExchangeBlock(ms[..2 + |ms[1].requests|]) && Exchanges(ms[2 + |ms[1].requests|..]))
  }

  /** What the normaliser promises a chat model: an optional system message, then exchanges. */
  predicate WellFormed(ms: seq<ChatMessage>) {
    Exchanges(ms) || (|ms| > 0 && ms[0].SystemMessage? && Exchanges(ms[1..]))
  }

  lemma {:induction false} ExchangesAppend(a: seq<ChatMessage>, b: seq<ChatMessage>)
    requires Exchanges(a) && ExchangeBlock(b)
    ensures Exchanges(a + b)
    decreases |a|
  {
    if a == [] {
      ExchangesOfBlock(b);
      assert a + b == b;
    } else {
      ExchangesHead(a);
      var n := 2 + |a[1].requests|;
      ExchangesAppend(a[n..], b);
      ExchangesAppendStep(a, b, n);
    }
  }

  /** A single exchange block is a run of exchanges. */
  lemma ExchangesOfBlock(b: seq<ChatMessage>)
    requires ExchangeBlock(b)
    ensures Exchanges(b)
  {
    assert b[..|b|] == b && b[|b|..] == [];
  }

  /** A non-empty run of exchanges starts with a whole exchange block. */
  lemma ExchangesHead(ms: seq<ChatMessage>)
    requires ms != [] && Exchanges(ms)
    ensures |ms| >= 2 && ms[1].AiMessage? && 2 + |ms[1].requests| <= |ms|
    ensures ExchangeBlock(ms[..2 + |ms[1].requests|]) && Exchanges(ms[2 + |ms[1].requests|..])
  {
  }

  /** Appending after the first block of a run appends to the run. */
  lemma ExchangesAppendStep(a: seq<ChatMessage>, b: seq<ChatMessage>, n: nat)
    requires |a| >= 2 && a[1].AiMessage? && n == 2 + |a[1].requests| && n <= |a|
    requires ExchangeBlock(a[..n]) && Exchanges(a[n..] + b)
    ensures Exchanges(a + b)
  {
    var ab := a + b;
    assert ab[1] == a[1];
    assert ab[..n] == a[..n];
    assert ab[n..] == a[n..] + b;
    ExchangesCons(ab, n);
  }

  /** An exchange block followed by exchanges is a run of exchanges. */
  lemma ExchangesCons(ms: seq<ChatMessage>, n: nat)
    requires |ms| >= 2 && ms[1].AiMessage? && n == 2 + |ms[1].requests| && n <= |ms|
    requires ExchangeBlock(ms[..n]) && Exchanges(ms[n..])
    ensures Exchanges(ms)
  {
  }

  lemma WellFormedAppend(a: seq<ChatMessage>, b: seq<ChatMessage>)
    requires WellFormed(a) && ExchangeBlock(b)
    ensures WellFormed(a + b)
  {
    if Exchanges(a) {
      ExchangesAppend(a, b);
    } else {
      ExchangesAppend(a[1..], b);
      assert (a + b)[1..] == a[1..] + b;
    }
  }

  // ---------------------------------------------------------------------------
  // The invariant of the pass
  // ---------------------------------------------------------------------------

  /** done ends inside an exchange whose AI message is the last AI message of done. */
  predicate OpenExchange(done: seq<ChatMessage>) {
    var a := LastAiIndex(done);
    1 <= a && NormalUser(done[a - 1]) && WellFormed(done[..a - 1])
    && (forall j :: a < j < |done| ==> done[j].ToolResultMessage?)
    && |done| - 1 - a <= |done[a].requests|
  }

  /** How many tool results the open exchange still lacks. */
  function Owed(done: seq<ChatMessage>): nat
    requires OpenExchange(done)
  {
    var a := LastAiIndex(done);
    |done[a].requests| - (|done| - 1 - a)
  }

  predicate ResultsThenUser(owed: nat, rest: seq<ChatMessage>) {
    owed <= |rest|
    && (forall k :: 0 <= k < owed ==> rest[k].ToolResultMessage?)
    && (owed == |rest| || rest[owed].UserMessage?)
  }

  /** The shapes the processed prefix can have, each with what it demands of the rest. */
  predicate PassInvariant(done: seq<ChatMessage>, rest: seq<ChatMessage>) {
    if done == [] then true
    else if |done| == 1 && done[0].SystemMessage? then NoSystems(rest)
    else if done[|done| - 1].UserMessage? then
      NormalUser(done[|done| - 1]) && WellFormed(done[..|done| - 1]) && |rest| > 0 && rest[0].AiMessage?
    else OpenExchange(done) && ResultsThenUser(Owed(done), rest)
  }

  lemma ClosedExchange(done: seq<ChatMessage>)
    requires OpenExchange(done) && Owed(done) == 0
    ensures WellFormed(done)
  {
    var a := LastAiIndex(done);
    assert ExchangeBlock(done[a - 1..]);
    assert done == done[..a - 1] + done[a - 1..];
    WellFormedAppend(done[..a - 1], done[a - 1..]);
  }

  lemma InvariantAtEnd(done: seq<ChatMessage>)
    requires PassInvariant(done, [])
    ensures WellFormed(done)
  {
    if done == [] {
    } else if |done| == 1 && done[0].SystemMessage? {
      assert done[1..] == [];
    } else {
      ClosedExchange(done);
    }
  }

  lemma SystemStepInvariant(done: seq<ChatMessage>, rest: seq<ChatMessage>)
    requires |rest| > 0 && rest[0].SystemMessage? && PassInvariant(done, rest)
    ensures PassInvariant(done + NextStep(Last(done), rest).emitted, NextStep(Last(done), rest).rest)
  {
    assert done == [];
  }

  lemma UserStepInvariant(done: seq<ChatMessage>, rest: seq<ChatMessage>)
    requires |rest| > 0 && rest[0].UserMessage? && PassInvariant(done, rest)
    ensures PassInvariant(done + NextStep(Last(done), rest).emitted, NextStep(Last(done), rest).rest)
  {
    var s := NextStep(Last(done), rest);
    var done' := done + s.emitted;
    assert done'[..|done'| - 1] == done;
    if done == [] {
    } else if |done| == 1 && done[0].SystemMessage? {
      assert done[1..] == [];
    } else {
      ClosedExchange(done);
    }
  }

  lemma AiStepInvariant(done: seq<ChatMessage>, rest: seq<ChatMessage>)
    requires |rest| > 0 && rest[0].AiMessage? && PassInvariant(done, rest)
    ensures PassInvariant(done + NextStep(Last(done), rest).emitted, NextStep(Last(done), rest).rest)
  {
    BeforeAi(done, rest);
    if done == [] || (|done| == 1 && done[0].SystemMessage?) {
      StartWellFormed(done);
      AiStepAtStart(done, rest);
    } else {
      NextStepAi(Last(done), rest);
      var s := AiStep(Last(done), rest);
      assert s.emitted == [rest[0]];
      OpenAfterAi(done, rest[0]);
    }
  }

  lemma NextStepAi(prev: Option<ChatMessage>, rest: seq<ChatMessage>)
    requires |rest| > 0 && rest[0].AiMessage?
    ensures NextStep(prev, rest) == AiStep(prev, rest)
  {
    match rest[0]
    case AiMessage(_, _) =>
  }

  /** An AI message can only come first, after the system message, or after a user message. */
  lemma BeforeAi(done: seq<ChatMessage>, rest: seq<ChatMessage>)
    requires |rest| > 0 && rest[0].AiMessage? && PassInvariant(done, rest)
    ensures done == [] || (|done| == 1 && done[0].SystemMessage?)
      || (|done| > 0 && NormalUser(done[|done| - 1]) && WellFormed(done[..|done| - 1]))
  {
  }

  lemma AiStepAtStart(done: seq<ChatMessage>, rest: seq<ChatMessage>)
    requires |rest| > 0 && rest[0].AiMessage?
    requires WellFormed(done) && (done == [] || !done[|done| - 1].UserMessage?)
    ensures PassInvariant(done + NextStep(Last(done), rest).emitted, NextStep(Last(done), rest).rest)
  {
    var prev := Last(done);
    assert !(prev.Some? && prev.value.UserMessage?) by {
      if done != [] {
        assert prev.value == done[|done| - 1];
      }
    }
    NextStepAi(prev, rest);
    AiStartOpens(done, prev, rest);
  }

  /** An AI message with no user message before it gets the placeholder user message and opens an exchange. */
  lemma AiStartOpens(done: seq<ChatMessage>, prev: Option<ChatMessage>, rest: seq<ChatMessage>)
    requires |rest| > 0 && rest[0].AiMessage? && WellFormed(done) && !(prev.Some? && prev.value.UserMessage?)
    ensures PassInvariant(done + AiStep(prev, rest).emitted, AiStep(prev, rest).rest)
  {
    var s := AiStep(prev, rest);
    AiStepLeavesResults(prev, rest);
    assert s.emitted == [UserText(HISTORY_LOST_TEXT)] + [rest[0]];
    assert [UserText(HISTORY_LOST_TEXT)] + [rest[0]] == [UserText(HISTORY_LOST_TEXT), rest[0]];
    OpenAfterStart(done, s.emitted, UserText(HISTORY_LOST_TEXT), rest[0], s.rest);
  }

  lemma OpenAfterStart(done: seq<ChatMessage>, emitted: seq<ChatMessage>, user: ChatMessage, ai: ChatMessage,
                       next: seq<ChatMessage>)
    requires WellFormed(done) && NormalUser(user) && ai.AiMessage? && emitted == [user, ai]
    requires ResultsThenUser(|ai.requests|, next)
    ensures PassInvariant(done + emitted, next)
  {
    OpenAfterUserAndAi(done, user, ai);
    assert done + emitted == done + [user] + [ai];
    OpenInvariant(done + emitted, next);
  }

  lemma OpenInvariant(done: seq<ChatMessage>, rest: seq<ChatMessage>)
    requires |done| >= 2 && done[|done| - 1].AiMessage?
    requires OpenExchange(done) && ResultsThenUser(Owed(done), rest)
    ensures PassInvariant(done, rest)
  {
  }

  lemma StartWellFormed(done: seq<ChatMessage>)
    requires done == [] || (|done| == 1 && done[0].SystemMessage?)
    ensures WellFormed(done)
  {
    if done != [] {
      assert done[1..] == [];
    }
  }

  lemma AiStepLeavesResults(prev: Option<ChatMessage>, rest: seq<ChatMessage>)
    requires |rest| > 0 && rest[0].AiMessage?
    ensures ResultsThenUser(|rest[0].requests|, AiStep(prev, rest).rest)
  {
  }


  lemma OpenAfterUserAndAi(before: seq<ChatMessage>, user: ChatMessage, ai: ChatMessage)
    requires WellFormed(before) && NormalUser(user) && ai.AiMessage?
    ensures OpenExchange(before + [user] + [ai]) && Owed(before + [user] + [ai]) == |ai.requests|
  {
    var prefix := before + [user];
    assert prefix[..|prefix| - 1] == before;
    OpenAfterAi(prefix, ai);
  }

  /** An AI message after a normal user that closes a well-formed prefix opens an exchange
    * owing one result per request. */
  lemma OpenAfterAi(prefix: seq<ChatMessage>, ai: ChatMessage)
    requires |prefix| > 0 && NormalUser(prefix[|prefix| - 1]) && WellFormed(prefix[..|prefix| - 1])
    requires ai.AiMessage?
    ensures OpenExchange(prefix + [ai]) && Owed(prefix + [ai]) == |ai.requests|
  {
    var done' := prefix + [ai];
    var a := |prefix|;
    assert done'[a] == ai;
    assert LastAiIndex(done') == a;
    assert done'[..a - 1] == prefix[..|prefix| - 1];
    assert done'[a - 1] == prefix[|prefix| - 1];
  }

  lemma LastAiIndexAppend(ms: seq<ChatMessage>, m: ChatMessage)
    requires !m.AiMessage?
    ensures LastAiIndex(ms + [m]) == LastAiIndex(ms)
  {
    assert (ms + [m])[..|ms|] == ms;
  }

  lemma ResultStepInvariant(done: seq<ChatMessage>, rest: seq<ChatMessage>)
    requires |rest| > 0 && rest[0].ToolResultMessage? && PassInvariant(done, rest)
    ensures PassInvariant(done + NextStep(Last(done), rest).emitted, NextStep(Last(done), rest).rest)
  {
    if done == [] || (|done| == 1 && done[0].SystemMessage?) {
      assert NextStep(Last(done), rest).emitted == [];
    } else {
      assert OpenExchange(done) && ResultsThenUser(Owed(done), rest);
      assert NextStep(Last(done), rest) == Step([rest[0]], rest[1..]) by {
        assert FollowsAiGroup(Last(done));
      }
      ResultExtendsOpen(done, rest[0]);
      assert ResultsThenUser(Owed(done) - 1, rest[1..]);
    }
  }

  /** A tool result appended to an open exchange leaves it open, owing one fewer. */
  lemma ResultExtendsOpen(done: seq<ChatMessage>, r: ChatMessage)
    requires OpenExchange(done) && Owed(done) > 0 && r.ToolResultMessage?
    ensures OpenExchange(done + [r]) && Owed(done + [r]) == Owed(done) - 1
  {
    var a := LastAiIndex(done);
    var done' := done + [r];
    LastAiIndexAppend(done, r);
    assert done'[..a - 1] == done[..a - 1];
  }

  lemma UnknownStepInvariant(done: seq<ChatMessage>, rest: seq<ChatMessage>)
    requires |rest| > 0 && rest[0].UnknownMessage? && PassInvariant(done, rest)
    ensures PassInvariant(done + NextStep(Last(done), rest).emitted, NextStep(Last(done), rest).rest)
  {
    assert NextStep(Last(done), rest).emitted == [];
    assert done + [] == done;
  }

  lemma StepInvariant(done: seq<ChatMessage>, rest: seq<ChatMessage>)
    requires |rest| > 0 && PassInvariant(done, rest)
    ensures PassInvariant(done + NextStep(Last(done), rest).emitted, NextStep(Last(done), rest).rest)
  {
    match rest[0]
    case SystemMessage(_) => SystemStepInvariant(done, rest);
    case UserMessage(_) => UserStepInvariant(done, rest);
    case AiMessage(_, _) => AiStepInvariant(done, rest);
    case ToolResultMessage(_, _, _) => ResultStepInvariant(done, rest);
    case UnknownMessage => UnknownStepInvariant(done, rest);
  }

  lemma {:induction false} AdjustFromWellFormed(done: seq<ChatMessage>, rest: seq<ChatMessage>)
    requires PassInvariant(done, rest)
    ensures WellFormed(AdjustFrom(done, rest))
    decreases Weight(rest)
  {
    if rest == [] {
      InvariantAtEnd(done);
    } else {
      var s := NextStep(Last(done), rest);
      StepInvariant(done, rest);
      AdjustFromWellFormed(done + s.emitted, s.rest);
    }
  }

  // ---------------------------------------------------------------------------
  // Histories the normaliser leaves alone
  // ---------------------------------------------------------------------------

  /** An exchange whose tool results carry pairwise distinct ids, so the repair at line 161
    * does not fire. */
  predicate CleanBlock(b: seq<ChatMessage>) {
    ExchangeBlock(b) && |ResultIds(b[2..])| == |b| - 2
  }

  predicate CleanExchanges(ms: seq<ChatMessage>)
    decreases |ms|
  {
    ms == []
    || (|ms| >= 2 && ms[1].AiMessage? && 2 + |ms[1].requests| <= |ms|
        && CleanBlock(ms[..2 + |ms[1].requests|]) && CleanExchanges(ms[2 + |ms[1].requests|..]))
  }

  /** A history with nothing to normalise: an optional system message, then exchanges of
    * normal user messages whose tool results have distinct ids. */
  predicate NeedsNoAdjusting(ms: seq<ChatMessage>) {
    CleanExchanges(ms) || (|ms| > 0 && ms[0].SystemMessage? && CleanExchanges(ms[1..]))
  }

  /** The normaliser is the identity on a history that needs nothing: no message is
    * merged, inserted, reordered or removed. */
  lemma NormalHistoryUnchanged(ms: seq<ChatMessage>)
    requires NeedsNoAdjusting(ms)
    ensures AdjustMessages(ms) == ms
  {
    var empty: seq<ChatMessage> := [];
    if CleanExchanges(ms) {
      AdjustFromClean(empty, ms);
      assert empty + ms == ms;
    } else {
      AdjustAfterSystem(ms);
    }
  }

  lemma AdjustAfterSystem(ms: seq<ChatMessage>)
    requires |ms| > 0 && ms[0].SystemMessage? && CleanExchanges(ms[1..])
    ensures AdjustFrom([], ms) == ms
  {
    var empty: seq<ChatMessage> := [];
    calc {
      AdjustFrom(empty, ms);
      { AdjustFromUnfold(empty, ms); }
      AdjustFrom(empty + NextStep(None, ms).emitted, NextStep(None, ms).rest);
      { CleanExchangesNoSystems(ms[1..]);
        SystemStepAlone(ms);
        assert empty + [ms[0]] == [ms[0]]; }
      AdjustFrom([ms[0]], ms[1..]);
      { AdjustFromClean([ms[0]], ms[1..]); }
      [ms[0]] + ms[1..];
      { assert [ms[0]] + ms[1..] == ms; }
      ms;
    }
  }

  /** A system message with no later one passes unchanged. */
  lemma SystemStepAlone(ms: seq<ChatMessage>)
    requires |ms| > 0 && ms[0].SystemMessage? && NoSystems(ms[1..])
    ensures NextStep(None, ms) == Step([ms[0]], ms[1..])
  {
    assert forall j :: 1 <= j < |ms| ==> ms[j] == ms[1..][j - 1];
    assert LastSystemIndex(ms) == 0;
    WithoutSystemsKeeps(ms[1..]);
  }

  lemma {:induction false} WithoutSystemsKeeps(ms: seq<ChatMessage>)
    requires NoSystems(ms)
    ensures WithoutSystems(ms) == ms
  {
    if ms != [] {
      assert NoSystems(ms[1..]) by {
        forall i | 0 <= i < |ms[1..]| ensures !ms[1..][i].SystemMessage? {
          assert ms[1..][i] == ms[i + 1];
        }
      }
      WithoutSystemsKeeps(ms[1..]);
      assert [ms[0]] + ms[1..] == ms;
    }
  }

  lemma {:induction false} CleanExchangesNoSystems(ms: seq<ChatMessage>)
    requires CleanExchanges(ms)
    ensures NoSystems(ms)
    decreases |ms|
  {
    if ms != [] {
      var n := 2 + |ms[1].requests|;
      CleanExchangesNoSystems(ms[n..]);
      forall i | 0 <= i < |ms| ensures !ms[i].SystemMessage? {
        if i < n {
          assert ms[i] == ms[..n][i];
        } else {
          assert ms[i] == ms[n..][i - n];
        }
      }
    }
  }

  /** The pass copies a run of clean exchanges to its output. */
  lemma {:induction false} AdjustFromClean(done: seq<ChatMessage>, rest: seq<ChatMessage>)
    requires CleanExchanges(rest)
    ensures AdjustFrom(done, rest) == done + rest
    decreases |rest|
  {
    if rest == [] {
      assert done + rest == done;
    } else {
      CleanExchangesTail(rest);
      var n := |rest[1].requests|;
      var b := rest[..2 + n];
      calc {
        AdjustFrom(done, rest);
        { AdjustCleanBlock(done, rest); }
        AdjustFrom(done + b, rest[2 + n..]);
        { AdjustFromClean(done + b, rest[2 + n..]); }
        done + b + rest[2 + n..];
        { assert b + rest[2 + n..] == rest; }
        done + rest;
      }
    }
  }

  /** A non-empty run of clean exchanges is a clean exchange followed by clean exchanges. */
  lemma CleanExchangesTail(rest: seq<ChatMessage>)
    requires rest != [] && CleanExchanges(rest)
    ensures |rest| >= 2 && rest[1].AiMessage? && 2 + |rest[1].requests| <= |rest|
    ensures CleanExchanges(rest[2 + |rest[1].requests|..])
    ensures rest[..2 + |rest[1].requests|] + rest[2 + |rest[1].requests|..] == rest
  {
    assert |rest| >= 2 && rest[1].AiMessage? && 2 + |rest[1].requests| <= |rest|
      && CleanExchanges(rest[2 + |rest[1].requests|..]);
    var k := 2 + |rest[1].requests|;
    SplitAt(rest, k);
  }

  lemma SplitAt(ms: seq<ChatMessage>, k: nat)
    requires k <= |ms|
    ensures ms[..k] + ms[k..] == ms
  {
  }

  /** One clean exchange at the head of the rest passes whole. */
  lemma AdjustCleanBlock(done: seq<ChatMessage>, rest: seq<ChatMessage>)
    requires rest != [] && CleanExchanges(rest)
    ensures |rest| >= 2 && rest[1].AiMessage? && 2 + |rest[1].requests| <= |rest|
    ensures AdjustFrom(done, rest) == AdjustFrom(done + rest[..2 + |rest[1].requests|], rest[2 + |rest[1].requests|..])
  {
    var n := |rest[1].requests|;
    var b := rest[..2 + n];
    assert b[0] == rest[0] && b[1] == rest[1];
    calc {
      AdjustFrom(done, rest);
      { AdjustCleanUser(done, rest, b); }
      AdjustFrom(done + [rest[0]], rest[1..]);
      { assert rest[1..][..|b| - 1] == b[1..] && rest[1..][|b| - 1..] == rest[|b|..];
        AdjustCleanAi(done + [rest[0]], b, rest[1..]);
        assert rest[1..][0] == rest[1] && rest[1..][1..] == rest[2..]; }
      AdjustFrom(done + [rest[0]] + [rest[1]], rest[2..]);
      { assert done + [rest[0]] + [rest[1]] == done + rest[..2]; }
      AdjustFrom(done + rest[..2], rest[2..]);
      { assert rest[2..] == rest[2..2 + n] + rest[2 + n..];
        AdjustCleanResults(done + rest[..2], rest, b, rest[2..2 + n], rest[2 + n..]); }
      AdjustFrom(done + rest[..2] + rest[2..2 + n], rest[2 + n..]);
      { assert done + rest[..2] + rest[2..2 + n] == done + b; }
      AdjustFrom(done + b, rest[2 + n..]);
    }
  }

  lemma AdjustCleanUser(done: seq<ChatMessage>, rest: seq<ChatMessage>, b: seq<ChatMessage>)
    requires CleanBlock(b) && |rest| >= |b| && b == rest[..|b|]
    ensures AdjustFrom(done, rest) == AdjustFrom(done + [rest[0]], rest[1..])
  {
    assert b[0] == rest[0] && b[1] == rest[1];
    AdjustFromUnfold(done, rest);
    NextStepUser(Last(done), rest);
    UserStepKeepsAnsweredUser(rest);
  }

  lemma AdjustCleanAi(done: seq<ChatMessage>, b: seq<ChatMessage>, tail: seq<ChatMessage>)
    requires |done| > 0 && done[|done| - 1].UserMessage?
    requires CleanBlock(b) && |tail| >= |b| - 1 && tail[..|b| - 1] == b[1..] && CleanExchanges(tail[|b| - 1..])
    ensures AdjustFrom(done, tail) == AdjustFrom(done + [tail[0]], tail[1..])
  {
    var prev := Last(done);
    calc {
      AdjustFrom(done, tail);
      { AdjustFromUnfold(done, tail); }
      AdjustFrom(done + NextStep(prev, tail).emitted, NextStep(prev, tail).rest);
      { NextStepAi(prev, tail);
        CleanBlockAiStep(prev, b, tail); }
      AdjustFrom(done + [tail[0]], tail[1..]);
    }
  }

  /** The results `rs` of a clean exchange, right after its AI message, pass whole. */
  lemma AdjustCleanResults(done: seq<ChatMessage>, rest: seq<ChatMessage>, b: seq<ChatMessage>,
                           rs: seq<ChatMessage>, tail: seq<ChatMessage>)
    requires |done| > 0 && done[|done| - 1].AiMessage?
    requires CleanBlock(b) && |rest| >= |b| && b == rest[..|b|] && rs == rest[2..|b|]
    ensures AdjustFrom(done, rs + tail) == AdjustFrom(done + rs, tail)
  {
    CleanBlockResults(b, rest, rs);
    assert FollowsAiGroup(Last(done));
    AdjustFromResultsThen(done, rs, tail);
  }

  /** The results of a clean exchange that opens `rest`. */
  lemma CleanBlockResults(b: seq<ChatMessage>, rest: seq<ChatMessage>, rs: seq<ChatMessage>)
    requires CleanBlock(b) && |rest| >= |b| && b == rest[..|b|] && rs == rest[2..|b|]
    ensures forall k :: 0 <= k < |rs| ==> rs[k].ToolResultMessage?
  {
    forall k | 0 <= k < |rs| ensures rs[k].ToolResultMessage? {
      assert rs[k] == b[k + 2];
    }
  }

  lemma NextStepUser(prev: Option<ChatMessage>, rest: seq<ChatMessage>)
    requires |rest| > 0 && rest[0].UserMessage?
    ensures NextStep(prev, rest) == UserStep(rest)
  {
    match rest[0]
    case UserMessage(_) =>
  }

  /** The AI message of a clean exchange, right after its user message, passes together with
    * everything after it. */
  lemma CleanBlockAiStep(prev: Option<ChatMessage>, b: seq<ChatMessage>, rest: seq<ChatMessage>)
    requires prev.Some? && prev.value.UserMessage?
    requires CleanBlock(b) && |rest| >= |b| - 1 && rest[..|b| - 1] == b[1..]
    requires CleanExchanges(rest[|b| - 1..])
    ensures AiStep(prev, rest) == Step([rest[0]], rest[1..])
  {
    var n := |rest[0].requests|;
    var after := rest[1..];
    CleanBlockAfterAi(b, rest);
    KeepResultsBeforeUser(n, after);
    if n > 0 {
      AiStepAfterUserUnfolds(prev, rest);
    }
  }

  /** After the AI message of a clean exchange come exactly its results, then a user message
    * or the end, and the results need no repair. */
  lemma CleanBlockAfterAi(b: seq<ChatMessage>, rest: seq<ChatMessage>)
    requires CleanBlock(b) && |rest| >= |b| - 1 && rest[..|b| - 1] == b[1..]
    requires CleanExchanges(rest[|b| - 1..])
    ensures rest[0].AiMessage? && |rest[0].requests| < |rest|
    ensures forall k :: 0 <= k < |rest[0].requests| ==> rest[1..][k].ToolResultMessage?
    ensures |rest[0].requests| + 1 == |rest| || rest[1..][|rest[0].requests|].UserMessage?
    ensures LeadingResults(rest[1..]) == |rest[0].requests|
    ensures |rest[0].requests| > 0 ==> !NeedsRepair(rest[0].requests, rest[1..])
  {
    var n := |rest[0].requests|;
    var after := rest[1..];
    assert rest[0] == b[1];
    assert n == |b| - 2;
    forall k | 0 <= k < n ensures after[k].ToolResultMessage? && after[k] == b[2..][k] {
      assert after[k] == rest[..|b| - 1][k + 1];
    }
    assert n == |after| || after[n].UserMessage? by {
      if n < |after| {
        assert after[n] == rest[|b| - 1..][0];
      }
    }
    LeadingResultsExact(after, n);
    assert after[..n] == b[2..];
  }

  /** Results followed by a user message or the end are kept as they are. */
  lemma KeepResultsBeforeUser(n: nat, grouped: seq<ChatMessage>)
    requires n <= |grouped| && forall k :: 0 <= k < n ==> grouped[k].ToolResultMessage?
    requires n == |grouped| || grouped[n].UserMessage?
    ensures KeepResultsThenUser(n, grouped) == grouped
  {
    assert DropNonUsers(grouped[n..]) == grouped[n..];
    assert grouped[..n] + grouped[n..] == grouped;
  }

  lemma {:induction false} LeadingResultsExact(ms: seq<ChatMessage>, n: nat)
    requires n <= |ms| && forall k :: 0 <= k < n ==> ms[k].ToolResultMessage?
    requires n == |ms| || !ms[n].ToolResultMessage?
    ensures LeadingResults(ms) == n
  {
    if n > 0 {
      LeadingResultsExact(ms[1..], n - 1);
    }
  }

  /** Tool results after an AI message or another result pass one by one. */
  lemma {:induction false} AdjustFromResultsThen(done: seq<ChatMessage>, rs: seq<ChatMessage>, tail: seq<ChatMessage>)
    requires FollowsAiGroup(Last(done))
    requires forall k :: 0 <= k < |rs| ==> rs[k].ToolResultMessage?
    ensures AdjustFrom(done, rs + tail) == AdjustFrom(done + rs, tail)
    decreases |rs|
  {
    if rs == [] {
      assert rs + tail == tail && done + rs == done;
    } else {
      assert (rs + tail)[0] == rs[0] && (rs + tail)[1..] == rs[1..] + tail;
      assert NextStep(Last(done), rs + tail) == Step([rs[0]], rs[1..] + tail);
      AdjustFromResultsThen(done + [rs[0]], rs[1..], tail);
      assert done + [rs[0]] + rs[1..] == done + rs;
    }
  }

  // ===========================================================================
  // adjustMessages as written
  // ===========================================================================

  const INDEX_OUT_OF_BOUNDS: string := "IndexOutOfBoundsException"
  const CLASS_CAST: string := "ClassCastException"

  /** Lines 163-169 as written: the reversed index list is discarded, so the listed
    * positions i+1, ..., i+k are removed in ascending order from a list that shrinks
    * with every removal. In `cur` (the list after the AI message) step t removes the
    * message now at position t; `removed` collects the removed results in order. */
  function RemoveAscending(cur: seq<ChatMessage>, t: nat, k: nat, removed: seq<ChatMessage>)
    : (r: Result<(seq<ChatMessage>, seq<ChatMessage>), string>)
    requires forall j :: 0 <= j < |removed| ==> removed[j].ToolResultMessage?
    ensures r.Success? ==> forall j :: 0 <= j < |r.value.1| ==> r.value.1[j].ToolResultMessage?
    ensures r.Success? ==> Weight(r.value.0) + Weight(r.value.1) == Weight(cur) + Weight(removed)
    ensures r.Success? ==> |r.value.1| == |removed| + (if t < k then k - t else 0)
    decreases k - t
  {
    if t >= k then Success((cur, removed))
    else if t >= |cur| then Failure(INDEX_OUT_OF_BOUNDS)
    else if !cur[t].ToolResultMessage? then Failure(CLASS_CAST)
    else
      var next := cur[..t] + cur[t + 1..];
      WeightSplit(cur, t);
      WeightSplit(cur[t..], 1);
      WeightConcat(cur[..t], cur[t + 1..]);
      assert cur[t..][1..] == cur[t + 1..];
      WeightConcat(removed, [cur[t]]);
      RemoveAscending(next, t + 1, k, removed + [cur[t]])
  }

  /** Lines 148-181 as written: the removal above, then the first result removed per id
    * is the one kept. */
  function RepairResultsAsWritten(requests: seq<ToolRequest>, after: seq<ChatMessage>): (r: Result<seq<ChatMessage>, string>)
    requires |requests| > 0
    ensures r.Success? ==> |requests| <= |r.value| && Weight(r.value) <= |requests| + Weight(after)
    ensures r.Success? ==> forall k :: 0 <= k < |requests| ==> r.value[k].ToolResultMessage?
    ensures !NeedsRepair(requests, after) ==> r == Success(after)
  {
    if !NeedsRepair(requests, after) then Success(after)
    else
      var removal := RemoveAscending(after, 0, LeadingResults(after), []);
      if removal.Failure? then Failure(removal.error)
      else
        var (cur, removed) := removal.value;
        var results := ResultsInRequestOrder(requests, removed, false);
        WeightOfResults(results);
        WeightOfResults(removed);
        WeightConcat(results, cur);
        Success(results + cur)
  }

  /** Lines 140-196 as written. */
  function AiStepAsWritten(prev: Option<ChatMessage>, rest: seq<ChatMessage>): (r: Result<Step, string>)
    requires |rest| > 0 && rest[0].AiMessage?
    ensures r.Success? ==> Weight(r.value.rest) < Weight(rest)
    ensures r.Success? ==> r.value.emitted == AiStep(prev, rest).emitted
  {
    var requests := rest[0].requests;
    var n := |requests|;
    var after := rest[1..];
    WeightSplit(rest, 1);
    assert Weight(rest[..1]) == 1 + n;
    if n == 0 || !NeedsRepair(requests, after) then Success(AiStep(prev, rest))
    else
      var repaired := RepairResultsAsWritten(requests, after);
      if repaired.Failure? then Failure(repaired.error)
      else
        var pre := if prev.Some? && prev.value.UserMessage? then [] else [UserText(HISTORY_LOST_TEXT)];
        Success(Step(pre + [rest[0]], KeepResultsThenUser(n, repaired.value)))
  }

  /** Lines 199-206 as written: after `messages.remove(i)` the loop still advances i, so
    * the message that moved into position i stays where it is without being examined. */
  function RemoveWithoutRewind(rest: seq<ChatMessage>): (r: Step)
    requires |rest| > 0
    ensures Weight(r.rest) < Weight(rest)
    ensures r.emitted + r.rest == rest[1..]
  {
    WeightSplit(rest, 1);
    if |rest| == 1 then Step([], [])
    else
      WeightSplit(rest[1..], 1);
      assert rest[1..] == [rest[1]] + rest[2..];
      Step([rest[1]], rest[2..])
  }

  function NextStepAsWritten(prev: Option<ChatMessage>, rest: seq<ChatMessage>): (r: Result<Step, string>)
    requires |rest| > 0
    ensures r.Success? ==> Weight(r.value.rest) < Weight(rest)
  {
    WeightSplit(rest, 1);
    match rest[0]
    case SystemMessage(_) => Success(SystemStep(rest))
    case UserMessage(_) => Success(UserStep(rest))
    case AiMessage(_, _) => AiStepAsWritten(prev, rest)
    case ToolResultMessage(_, _, _) =>
      if FollowsAiGroup(prev) then Success(Step([rest[0]], rest[1..])) else Success(RemoveWithoutRewind(rest))
    case UnknownMessage => Success(RemoveWithoutRewind(rest))
  }

  function AdjustFromAsWritten(done: seq<ChatMessage>, rest: seq<ChatMessage>): (r: Result<seq<ChatMessage>, string>)
    decreases Weight(rest)
    ensures rest == [] ==> r == Success(done)
    ensures r.Success? ==> done <= r.value
  {
    if rest == [] then Success(done)
    else
      var s := NextStepAsWritten(Last(done), rest);
      if s.Failure? then Failure(s.error) else AdjustFromAsWritten(done + s.value.emitted, s.value.rest)
  }

  /** adjustMessages exactly as the loop is written; a Failure is the exception it throws. */
  function AdjustMessagesAsWritten(messages: seq<ChatMessage>): (r: Result<seq<ChatMessage>, string>)
    ensures messages == [] ==> r == Success([])
  {
    AdjustFromAsWritten([], messages)
  }

  /**
   * updateMessages as written: the pass as written runs first, so its exception
   * leaves the store untouched, and what it returns is stored as it is.
   */
  function UpdateMessagesAsWritten(store: Store, sessionId: string, messages: seq<ChatMessage>): (r: Result<Store, string>)
    ensures r.Failure? <==> AdjustMessagesAsWritten(messages).Failure?
    ensures r.Success? ==> sessionId in r.value && r.value[sessionId] == AdjustMessagesAsWritten(messages).value
    ensures r.Success? ==> forall k :: k in store && k != sessionId ==> k in r.value && r.value[k] == store[k]
  {
    var adjusted :- AdjustMessagesAsWritten(messages);
    Success(store[sessionId := adjusted])
  }

  /**
   * Where the update as written and the corrected one part: a missing result makes
   * the one as written throw where the corrected one stores a well-formed list, and
   * an orphan result is stored as written although the list is then not well formed.
   */
  lemma UpdateAsWrittenDiffers(store: Store, sessionId: string, a: ToolRequest, b: ToolRequest, c: ToolRequest, ra: string, rb: string)
    requires a.id != b.id
    ensures
      var missing := [UserText("q"), AiMessage(None, [a, b, c]), ResultFor(a, ra), ResultFor(b, rb)];
      UpdateMessagesAsWritten(store, sessionId, missing).Failure?
      && WellFormed(UpdateMessages(store, sessionId, missing)[sessionId])
    ensures
      var orphan := [ToolResultMessage("x", "t", "1"), ToolResultMessage("y", "t", "2")];
      && UpdateMessagesAsWritten(store, sessionId, orphan).Success?
      && !WellFormed(UpdateMessagesAsWritten(store, sessionId, orphan).value[sessionId])
      && UpdateMessages(store, sessionId, orphan)[sessionId] == []
  {
    MissingResultThrows(a, b, c, ra, rb);
    OrphanResultSurvives();
  }

  /** Two results for an AI message whose requests they do not match one to one: the
    * second ascending removal reads past the results, so the repair always throws. */
  lemma RemoveAscendingTwoResultsThrows(after: seq<ChatMessage>)
    requires LeadingResults(after) == 2
    ensures RemoveAscending(after, 0, 2, []).Failure?
  {
    var next := after[..0] + after[1..];
    assert next[1..] == after[2..];
  }

  /** A normal user message directly answered by an AI message passes unchanged. */
  lemma UserStepKeepsAnsweredUser(rest: seq<ChatMessage>)
    requires |rest| > 1 && NormalUser(rest[0]) && rest[1].AiMessage?
    ensures UserStep(rest) == Step([rest[0]], rest[1..])
  {
    assert UserRunLength(rest) == 1;
    assert rest[..1] == [rest[0]];
    AdjustUserKeepsNormal(rest[0]);
    assert AdjustUsers([rest[0]]) == [rest[0]];
  }

  /** Three requests, the last result lost (the case the repair exists for): the pass as
    * written throws. */
  lemma MissingResultThrows(a: ToolRequest, b: ToolRequest, c: ToolRequest, ra: string, rb: string)
    requires a.id != b.id
    ensures
      var ms := [UserText("q"), AiMessage(None, [a, b, c]), ResultFor(a, ra), ResultFor(b, rb)];
      AdjustMessagesAsWritten(ms).Failure?
  {
    var ms := [UserText("q"), AiMessage(None, [a, b, c]), ResultFor(a, ra), ResultFor(b, rb)];
    var rest := [AiMessage(None, [a, b, c]), ResultFor(a, ra), ResultFor(b, rb)];
    AsWrittenUserFirst(ms);
    assert ms[1..] == rest;
    MissingRepairThrows(ms[0], a, b, c, ra, rb);
    AsWrittenAiFails([ms[0]], rest);
  }

  /** As written, a history opening with an answered user message passes that message first. */
  lemma AsWrittenUserFirst(ms: seq<ChatMessage>)
    requires |ms| > 1 && NormalUser(ms[0]) && ms[1].AiMessage?
    ensures AdjustMessagesAsWritten(ms) == AdjustFromAsWritten([ms[0]], ms[1..])
  {
    UserStepKeepsAnsweredUser(ms);
    var empty: seq<ChatMessage> := [];
    assert empty + [ms[0]] == [ms[0]];
  }

  /** As written, an AI step that throws makes the whole pass throw. */
  lemma AsWrittenAiFails(done: seq<ChatMessage>, rest: seq<ChatMessage>)
    requires |rest| > 0 && rest[0].AiMessage? && AiStepAsWritten(Last(done), rest).Failure?
    ensures AdjustFromAsWritten(done, rest).Failure?
  {
  }

  /** As written, three requests answered by two distinct results make the repair throw. */
  lemma MissingRepairThrows(u: ChatMessage, a: ToolRequest, b: ToolRequest, c: ToolRequest, ra: string, rb: string)
    requires a.id != b.id
    ensures AiStepAsWritten(Some(u), [AiMessage(None, [a, b, c]), ResultFor(a, ra), ResultFor(b, rb)]).Failure?
  {
    var rest := [AiMessage(None, [a, b, c]), ResultFor(a, ra), ResultFor(b, rb)];
    var after := rest[1..];
    assert LeadingResults(after) == 2 by {
      assert after[1..][1..] == [];
    }
    RemoveAscendingTwoResultsThrows(after);
    assert RepairResultsAsWritten([a, b, c], after).Failure?;
  }

  /** The same input through the corrected pass: the lost result gets its placeholder. */
  lemma MissingResultRepaired(u: ChatMessage, a: ToolRequest, b: ToolRequest, c: ToolRequest, ra: string, rb: string)
    requires NormalUser(u) && a.id != b.id && c.id != a.id && c.id != b.id
    ensures
      var ms := [u, AiMessage(None, [a, b, c]), ResultFor(a, ra), ResultFor(b, rb)];
      AdjustMessages(ms) == ms + [ResultFor(c, RESULT_LOST_TEXT)]
  {
    var ai := AiMessage(None, [a, b, c]);
    var ms := [u, ai, ResultFor(a, ra), ResultFor(b, rb)];
    var results := [ResultFor(a, ra), ResultFor(b, rb), ResultFor(c, RESULT_LOST_TEXT)];
    calc {
      AdjustMessages(ms);
      AdjustFrom([], ms);
      { AdjustAfterAnsweredUser(ms);
        assert ms[1..] == [ai, ResultFor(a, ra), ResultFor(b, rb)]; }
      AdjustFrom([u], [ai, ResultFor(a, ra), ResultFor(b, rb)]);
      { AdjustAfterRepairedAi(u, a, b, c, ra, rb); }
      AdjustFrom([u, ai], results);
      { AdjustFromResults([u, ai], results); }
      [u, ai] + results;
    }
    assert [u, ai] + results == ms + [ResultFor(c, RESULT_LOST_TEXT)];
  }

  /** A normal user message answered by an AI message is the pass's first output. */
  lemma AdjustAfterAnsweredUser(ms: seq<ChatMessage>)
    requires |ms| > 1 && NormalUser(ms[0]) && ms[1].AiMessage?
    ensures AdjustFrom([], ms) == AdjustFrom([ms[0]], ms[1..])
  {
    var empty: seq<ChatMessage> := [];
    AdjustFromUnfold(empty, ms);
    UserStepKeepsAnsweredUser(ms);
    assert NextStep(Last(empty), ms) == Step([ms[0]], ms[1..]);
    assert empty + [ms[0]] == [ms[0]];
  }

  /** After the user message, the AI message passes and its results come back repaired. */
  lemma AdjustAfterRepairedAi(u: ChatMessage, a: ToolRequest, b: ToolRequest, c: ToolRequest, ra: string, rb: string)
    requires u.UserMessage? && a.id != b.id && c.id != a.id && c.id != b.id
    ensures
      var ai := AiMessage(None, [a, b, c]);
      AdjustFrom([u], [ai, ResultFor(a, ra), ResultFor(b, rb)])
        == AdjustFrom([u, ai], [ResultFor(a, ra), ResultFor(b, rb), ResultFor(c, RESULT_LOST_TEXT)])
  {
    var ai := AiMessage(None, [a, b, c]);
    var rest := [ai, ResultFor(a, ra), ResultFor(b, rb)];
    var results := [ResultFor(a, ra), ResultFor(b, rb), ResultFor(c, RESULT_LOST_TEXT)];
    AdjustFromUnfold([u], rest);
    NextStepAi(Last([u]), rest);
    assert rest[1..] == [ResultFor(a, ra), ResultFor(b, rb)];
    AiStepAfterUserUnfolds(Some(u), rest);
    MissingResultRepair(a, b, c, ra, rb);
    KeepResultsThenUserAtEnd(3, results);
    assert [u] + [ai] == [u, ai];
  }

  /** One step of the pass. */
  lemma AdjustFromUnfold(done: seq<ChatMessage>, rest: seq<ChatMessage>)
    requires rest != []
    ensures AdjustFrom(done, rest)
      == AdjustFrom(done + NextStep(Last(done), rest).emitted, NextStep(Last(done), rest).rest)
  {
  }

  lemma AiStepAfterUserUnfolds(prev: Option<ChatMessage>, rest: seq<ChatMessage>)
    requires |rest| > 0 && rest[0].AiMessage? && |rest[0].requests| > 0
    requires prev.Some? && prev.value.UserMessage?
    ensures AiStep(prev, rest)
      == Step([rest[0]], KeepResultsThenUser(|rest[0].requests|, RepairResults(rest[0].requests, rest[1..])))
  {
  }

  lemma KeepResultsThenUserAtEnd(n: nat, grouped: seq<ChatMessage>)
    requires n == |grouped|
    requires forall k :: 0 <= k < n ==> grouped[k].ToolResultMessage?
    ensures KeepResultsThenUser(n, grouped) == grouped
  {
    assert grouped[n..] == [] && grouped[..n] == grouped;
  }

  lemma MissingResultRepair(a: ToolRequest, b: ToolRequest, c: ToolRequest, ra: string, rb: string)
    requires a.id != b.id && c.id != a.id && c.id != b.id
    ensures
      RepairResults([a, b, c], [ResultFor(a, ra), ResultFor(b, rb)])
        == [ResultFor(a, ra), ResultFor(b, rb), ResultFor(c, RESULT_LOST_TEXT)]
  {
    var after := [ResultFor(a, ra), ResultFor(b, rb)];
    assert LeadingResults(after) == 2 by {
      assert after[1..][1..] == [];
    }
    assert after[..2] == after && after[2..] == [];
    assert LastResultWithId(after, a.id) == 0 by {
      assert after[..1] == [after[0]];
    }
    assert LastResultWithId(after, b.id) == 1;
    assert LastResultWithId(after, c.id) == -1;
  }

  /** Tool results after an AI message or another result all stay, unchanged. */
  lemma {:induction false} AdjustFromResults(done: seq<ChatMessage>, rs: seq<ChatMessage>)
    requires FollowsAiGroup(Last(done))
    requires forall k :: 0 <= k < |rs| ==> rs[k].ToolResultMessage?
    ensures AdjustFrom(done, rs) == done + rs
    decreases |rs|
  {
    if rs == [] {
      assert done + rs == done;
    } else {
      assert NextStep(Last(done), rs) == Step([rs[0]], rs[1..]);
      AdjustFromResults(done + [rs[0]], rs[1..]);
      assert done + [rs[0]] + rs[1..] == done + rs;
    }
  }

  /** Two orphan tool results: the first is removed, the second is passed over and stays,
    * so the history handed to the model starts with a tool result. */
  lemma OrphanResultSurvives()
    ensures
      var ms := [ToolResultMessage("x", "t", "1"), ToolResultMessage("y", "t", "2")];
      AdjustMessagesAsWritten(ms) == Success([ms[1]]) && !WellFormed([ms[1]])
      && AdjustMessages(ms) == []
  {
    var ms := [ToolResultMessage("x", "t", "1"), ToolResultMessage("y", "t", "2")];
    assert ms[2..] == [];
    assert RemoveWithoutRewind(ms) == Step([ms[1]], []);
    assert NextStepAsWritten(None, ms) == Success(Step([ms[1]], []));
    assert NextStepAsWritten(Last([]), ms) == Success(Step([ms[1]], []));
    var empty: seq<ChatMessage> := [];
    assert empty + [ms[1]] == [ms[1]];
    assert AdjustFromAsWritten(empty, ms) == AdjustFromAsWritten([ms[1]], []);
    assert NextStep(None, ms) == Step([], [ms[1]]);
    assert AdjustFrom([], ms) == AdjustFrom([], [ms[1]]);
    assert NextStep(None, [ms[1]]) == Step([], []);
    assert AdjustFrom([], [ms[1]]) == AdjustFrom([], []);
  }

  /** An unknown message followed by an AI message: the AI message is passed over, so it
    * keeps no user message before it. */
  lemma UnknownHidesAi()
    ensures
      var ms := [UnknownMessage, AiMessage(Some("hi"), [])];
      AdjustMessagesAsWritten(ms) == Success([ms[1]]) && !WellFormed([ms[1]])
      && AdjustMessages(ms) == [UserText(HISTORY_LOST_TEXT), ms[1]]
  {
    var ai := AiMessage(Some("hi"), []);
    UnknownHidesAiAsWritten(ai);
    LoneAiIllFormed(ai);
    UnknownDroppedBeforeAi(ai);
  }

  lemma UnknownHidesAiAsWritten(ai: ChatMessage)
    requires ai.AiMessage?
    ensures AdjustMessagesAsWritten([UnknownMessage, ai]) == Success([ai])
  {
    var ms := [UnknownMessage, ai];
    assert ms[2..] == [];
    assert RemoveWithoutRewind(ms) == Step([ms[1]], []);
    assert NextStepAsWritten(Last([]), ms) == Success(Step([ms[1]], []));
    var empty: seq<ChatMessage> := [];
    assert empty + [ms[1]] == [ms[1]];
    assert AdjustFromAsWritten(empty, ms) == AdjustFromAsWritten([ms[1]], []);
  }

  lemma LoneAiIllFormed(ai: ChatMessage)
    requires ai.AiMessage?
    ensures !WellFormed([ai])
  {
    assert [ai][1..] == [];
  }

  lemma UnknownDroppedBeforeAi(ai: ChatMessage)
    requires ai.AiMessage? && ai.requests == []
    ensures AdjustMessages([UnknownMessage, ai]) == [UserText(HISTORY_LOST_TEXT), ai]
  {
    var ms := [UnknownMessage, ai];
    assert NextStep(None, ms) == Step([], [ms[1]]);
    assert AdjustFrom([], ms) == AdjustFrom([], [ms[1]]);
    NextStepAi(None, [ai]);
    var s := AiStep(None, [ai]);
    assert s.emitted == [UserText(HISTORY_LOST_TEXT), ai];
    assert s.rest == [] by {
      assert KeepResultsThenUser(0, []) == [];
    }
    assert AdjustFrom([], [ai]) == AdjustFrom(s.emitted, []);
  }
}
